/** The undirected graph kept by a quartet search tree (class QSearchTree).
    Nodes are the indices 0 .. total-1; the first `dim` of them are the leaves
    of the distance matrix the tree was built for. Every edge a--b is stored
    once, in the neighbour set of its smaller endpoint. */
module QTreeGraph {
  import opened Common

  /** A quartet search tree: the part of its state this model keeps.
      - `dim`, `labels`: the distance matrix's dimension and optional labels;
      - `total`: total_node_count;
      - `adj[a]`: the neighbour list of node a, holding only neighbours b > a;
      - `leafPlacement`: which leaf node sits in which matrix column;
      - the two cache flags and the mutation counter of the statistics. */
  datatype QTree = QTree(
    dim: nat,
    labels: Option<seq<string>>,
    total: nat,
    adj: seq<set<nat>>,
    leafPlacement: seq<nat>,
    mustRecalculatePaths: bool,
    fScoreGood: bool,
    lastSimpleMutations: nat)

  /** The class invariant: the constructor demands dim >= 4 and fixes
      total = 2*dim - 2; each neighbour set lives at its smaller endpoint. */
  predicate Valid(t: QTree) {
    && t.dim >= 4
    && t.total == 2 * t.dim - 2
    && |t.adj| == t.total
    && (forall a, b :: 0 <= a < |t.adj| && b in t.adj[a] ==> a < b < t.total)
    && (t.labels.Some? ==> |t.labels.value| >= t.dim)
  }

  /** is_connected: never for a node with itself; otherwise look in the
      neighbour set of the smaller endpoint. */
  function IsConnected(t: QTree, a: nat, b: nat): bool
    requires Valid(t) && a < t.total && b < t.total
  {
    if a == b then false
    else if a > b then a in t.adj[b]
    else b in t.adj[a]
  }

  lemma IsConnectedSymmetricIrreflexive(t: QTree, a: nat, b: nat)
    requires Valid(t) && a < t.total && b < t.total
    ensures IsConnected(t, a, b) == IsConnected(t, b, a)
    ensures !IsConnected(t, a, a)
  {
  }

  /** Whichever of the two rows holds the edge, it is seen: the edge is
      stored only in the row of its smaller endpoint, and looked up there. */
  lemma IsConnectedEitherRow(t: QTree, a: nat, b: nat)
    requires Valid(t) && a < t.total && b < t.total
    ensures IsConnected(t, a, b) <==> a != b && (b in t.adj[a] || a in t.adj[b])
  {
  }

  /** The neighbours of `a`, as a set. */
  function NeighborSet(t: QTree, a: nat): set<nat>
    requires Valid(t) && a < t.total
  {
    set x: nat | x < t.total && IsConnected(t, x, a)
  }

  /** The number of neighbours of `a`. */
  function Degree(t: QTree, a: nat): nat
    requires Valid(t) && a < t.total
  {
    |NeighborSet(t, a)|
  }

  /** Degrees depend on the edges only. */
  lemma SameEdgesSameDegrees(t: QTree, u: QTree)
    requires Valid(t) && Valid(u) && t.total == u.total && t.adj == u.adj
    ensures forall x: nat :: x < t.total ==> Degree(u, x) == Degree(t, x)
  {
    forall x: nat | x < t.total
      ensures Degree(u, x) == Degree(t, x)
    {
      assert NeighborSet(u, x) == NeighborSet(t, x);
    }
  }

  /** Every node has one or three neighbours. */
  predicate Ternary(t: QTree)
    requires Valid(t)
  {
    forall x: nat :: x < t.total ==> Degree(t, x) == 1 || Degree(t, x) == 3
  }

  /** The number of edges: each is counted once, at its smaller endpoint. */
  function EdgeCount(t: QTree): nat {
    SumSizes(t.adj)
  }

  function SumSizes(s: seq<set<nat>>): nat {
    if |s| == 0 then 0 else SumSizes(s[..|s| - 1]) + |s[|s| - 1]|
  }

  lemma {:induction false} SumSizesUpdate(s: seq<set<nat>>, i: nat, x: set<nat>)
    requires i < |s|
    ensures SumSizes(s[i := x]) + |s[i]| == SumSizes(s) + |x|
    decreases |s|
  {
    var n := |s| - 1;
    var s' := s[i := x];
    assert s'[..n] == if i == n then s[..n] else s[..n][i := x];
    if i < n {
      SumSizesUpdate(s[..n], i, x);
    }
  }

  /** The two endpoints of an edge, in either order. */
  predicate SamePair(x: nat, y: nat, a: nat, b: nat) {
    (x == a && y == b) || (x == b && y == a)
  }

  /** What `connect` asserts before it adds an edge. */
  predicate CanConnect(t: QTree, a: nat, b: nat)
    requires Valid(t)
  {
    a < t.total && b < t.total && a != b && !IsConnected(t, a, b)
  }

  /** What `disconnect` asserts before it removes an edge. */
  predicate CanDisconnect(t: QTree, a: nat, b: nat)
    requires Valid(t)
  {
    a < t.total && b < t.total && a != b && IsConnected(t, a, b)
  }

  /** connect: add the edge a--b and invalidate the path table and score. */
  function Connect(t: QTree, a: nat, b: nat): (r: QTree)
    requires Valid(t) && CanConnect(t, a, b)
    ensures Valid(r)
    ensures r == t.(adj := r.adj, mustRecalculatePaths := true, fScoreGood := false)
    ensures IsConnected(r, a, b)
  {
    var lo := if a < b then a else b;
    var hi := if a < b then b else a;
    t.(adj := t.adj[lo := t.adj[lo] + {hi}], mustRecalculatePaths := true, fScoreGood := false)
  }

  /** disconnect: remove the edge a--b and invalidate the path table and score. */
  function Disconnect(t: QTree, a: nat, b: nat): (r: QTree)
    requires Valid(t) && CanDisconnect(t, a, b)
    ensures Valid(r)
    ensures r == t.(adj := r.adj, mustRecalculatePaths := true, fScoreGood := false)
    ensures !IsConnected(r, a, b)
  {
    var lo := if a < b then a else b;
    var hi := if a < b then b else a;
    t.(adj := t.adj[lo := t.adj[lo] - {hi}], mustRecalculatePaths := true, fScoreGood := false)
  }

  /** After connect, two nodes are joined exactly when they are the new
      edge's endpoints or were joined before. */
  lemma ConnectAt(t: QTree, a: nat, b: nat, x: nat, y: nat)
    requires Valid(t) && CanConnect(t, a, b) && x < t.total && y < t.total
    ensures IsConnected(Connect(t, a, b), x, y) == (SamePair(x, y, a, b) || IsConnected(t, x, y))
  {
  }

  /** After disconnect, two nodes are joined exactly when they were joined
      before and are not the removed edge's endpoints. */
  lemma DisconnectAt(t: QTree, a: nat, b: nat, x: nat, y: nat)
    requires Valid(t) && CanDisconnect(t, a, b) && x < t.total && y < t.total
    ensures IsConnected(Disconnect(t, a, b), x, y) == (!SamePair(x, y, a, b) && IsConnected(t, x, y))
  {
  }

  /** Adding an edge raises the degree of its two endpoints by one and of no
      other node. */
  lemma ConnectDegree(t: QTree, a: nat, b: nat)
    requires Valid(t) && CanConnect(t, a, b)
    ensures forall x: nat :: x < t.total ==>
              Degree(Connect(t, a, b), x) == Degree(t, x) + (if x == a || x == b then 1 else 0)
  {
    forall x: nat | x < t.total
      ensures Degree(Connect(t, a, b), x) == Degree(t, x) + (if x == a || x == b then 1 else 0)
    {
      ConnectDegreeAt(t, a, b, x);
    }
  }

  lemma ConnectDegreeAt(t: QTree, a: nat, b: nat, x: nat)
    requires Valid(t) && CanConnect(t, a, b) && x < t.total
    ensures Degree(Connect(t, a, b), x) == Degree(t, x) + (if x == a || x == b then 1 else 0)
  {
    var r := Connect(t, a, b);
    var before := NeighborSet(t, x);
    var after := NeighborSet(r, x);
    var added: set<nat> := if x == a then {b} else if x == b then {a} else {};
    forall y: nat | y < t.total
      ensures IsConnected(r, y, x) <==> IsConnected(t, y, x) || y in added
    {
      ConnectAt(t, a, b, y, x);
    }
    assert after == before + added;
    assert before !! added;
  }

  /** Removing an edge lowers the degree of its two endpoints by one and of no
      other node. */
  lemma DisconnectDegree(t: QTree, a: nat, b: nat)
    requires Valid(t) && CanDisconnect(t, a, b)
    ensures forall x: nat :: x < t.total ==>
              Degree(Disconnect(t, a, b), x) + (if x == a || x == b then 1 else 0) == Degree(t, x)
  {
    forall x: nat | x < t.total
      ensures Degree(Disconnect(t, a, b), x) + (if x == a || x == b then 1 else 0) == Degree(t, x)
    {
      DisconnectDegreeAt(t, a, b, x);
    }
  }

  lemma DisconnectDegreeAt(t: QTree, a: nat, b: nat, x: nat)
    requires Valid(t) && CanDisconnect(t, a, b) && x < t.total
    ensures Degree(Disconnect(t, a, b), x) + (if x == a || x == b then 1 else 0) == Degree(t, x)
  {
    var r := Disconnect(t, a, b);
    var before := NeighborSet(t, x);
    var after := NeighborSet(r, x);
    var removed: set<nat> := if x == a then {b} else if x == b then {a} else {};
    forall y: nat | y < t.total
      ensures IsConnected(t, y, x) <==> IsConnected(r, y, x) || y in removed
    {
      DisconnectAt(t, a, b, y, x);
    }
    assert before == after + removed;
    assert after !! removed;
  }

  lemma ConnectEdgeCount(t: QTree, a: nat, b: nat)
    requires Valid(t) && CanConnect(t, a, b)
    ensures EdgeCount(Connect(t, a, b)) == EdgeCount(t) + 1
  {
    var lo := if a < b then a else b;
    var hi := if a < b then b else a;
    assert hi !in t.adj[lo];
    SumSizesUpdate(t.adj, lo, t.adj[lo] + {hi});
  }

  lemma DisconnectEdgeCount(t: QTree, a: nat, b: nat)
    requires Valid(t) && CanDisconnect(t, a, b)
    ensures EdgeCount(Disconnect(t, a, b)) + 1 == EdgeCount(t)
  {
    var lo := if a < b then a else b;
    var hi := if a < b then b else a;
    assert hi in t.adj[lo];
    SumSizesUpdate(t.adj, lo, t.adj[lo] - {hi});
  }

  /** The neighbours of `who` below index k, in ascending order: the list the
      loop of get_neighbors has built after k iterations. */
  function NeighborsBelow(t: QTree, who: nat, k: nat): (r: seq<nat>)
    requires Valid(t) && who < t.total && k <= t.total
    ensures Ascending(r)
    ensures forall x: nat :: x in r <==> x < k && IsConnected(t, x, who)
  {
    if k == 0 then []
    else
      var prev := NeighborsBelow(t, who, k - 1);
      assert forall i :: 0 <= i < |prev| ==> prev[i] in prev;
      if IsConnected(t, k - 1, who) then prev + [k - 1] else prev
  }

  /** The neighbours of `who` below index k, as a set. */
  function NeighborSetBelow(t: QTree, who: nat, k: nat): set<nat>
    requires Valid(t) && who < t.total
  {
    set x: nat | x < k && x < t.total && IsConnected(t, x, who)
  }

  /** The list holds each neighbour below k once. */
  lemma {:induction false} NeighborsBelowCount(t: QTree, who: nat, k: nat)
    requires Valid(t) && who < t.total && k <= t.total
    ensures |NeighborsBelow(t, who, k)| == |NeighborSetBelow(t, who, k)|
  {
    if k > 0 {
      NeighborsBelowCount(t, who, k - 1);
      NeighborSetBelowStep(t, who, k);
    } else {
      assert NeighborSetBelow(t, who, k) == {};
    }
  }

  /** Raising the bound by one adds node k-1 when it is a neighbour. */
  lemma NeighborSetBelowStep(t: QTree, who: nat, k: nat)
    requires Valid(t) && who < t.total && 0 < k <= t.total
    ensures |NeighborSetBelow(t, who, k)|
            == |NeighborSetBelow(t, who, k - 1)| + (if IsConnected(t, k - 1, who) then 1 else 0)
  {
    var below := NeighborSetBelow(t, who, k - 1);
    var added: set<nat> := if IsConnected(t, k - 1, who) then {k - 1} else {};
    forall x: nat
      ensures x in NeighborSetBelow(t, who, k) <==> x in below + added
    {
    }
    assert NeighborSetBelow(t, who, k) == below + added;
    assert below !! added;
  }

  /** get_neighbors: every neighbour of `who`, ascending, one entry each. */
  function Neighbors(t: QTree, who: nat): (r: seq<nat>)
    requires Valid(t) && who < t.total
    ensures Ascending(r)
    ensures forall x: nat :: x in r <==> x < t.total && IsConnected(t, x, who)
  {
    NeighborsBelow(t, who, t.total)
  }

  /** get_neighbors lists as many nodes as the degree says. */
  lemma NeighborsCount(t: QTree, who: nat)
    requires Valid(t) && who < t.total
    ensures |Neighbors(t, who)| == Degree(t, who)
  {
    NeighborsBelowCount(t, who, t.total);
    assert NeighborSetBelow(t, who, t.total) == NeighborSet(t, who);
  }

  lemma NeighborsBelowStep(t: QTree, who: nat, k: nat)
    requires Valid(t) && who < t.total && k < t.total
    ensures |NeighborsBelow(t, who, k + 1)| == |NeighborsBelow(t, who, k)| + (if IsConnected(t, k, who) then 1 else 0)
  {
  }

  /** get_neighbor_count: count the nodes connected to `a`. */
  method GetNeighborCount(t: QTree, a: nat) returns (acc: nat)
    requires Valid(t) && a < t.total
    ensures acc == Degree(t, a)
    ensures acc == |Neighbors(t, a)|
  {
    acc := 0;
    var i: nat := 0;
    while i < t.total
      invariant i <= t.total
      invariant acc == |NeighborsBelow(t, a, i)|
    {
      NeighborsBelowStep(t, a, i);
      if IsConnected(t, i, a) {
        acc := acc + 1;
      }
      i := i + 1;
    }
    NeighborsCount(t, a);
  }

  /** is_standard_tree: every node has exactly one or three neighbours. */
  method IsStandardTree(t: QTree) returns (r: bool)
    requires Valid(t)
    ensures r <==> Ternary(t)
  {
    var i: nat := 0;
    while i < t.total
      invariant i <= t.total
      invariant forall x: nat :: x < i ==> Degree(t, x) == 1 || Degree(t, x) == 3
    {
      var nc := GetNeighborCount(t, i);
      if nc != 1 && nc != 3 {
        return false;
      }
      i := i + 1;
    }
    return true;
  }

  /** is_tree_ternary: the same degree test as is_standard_tree. */
  method IsTreeTernary(t: QTree) returns (r: bool)
    requires Valid(t)
    ensures r <==> Ternary(t)
  {
    r := IsStandardTree(t);
  }

  /** get_leaf_node_count: (total + 2) / 2, which is the matrix dimension. */
  function LeafNodeCount(t: QTree): (r: nat)
    requires Valid(t)
    ensures r == t.dim
    ensures r + KernelNodeCount(t) == t.total
  {
    (t.total + 2) / 2
  }

  /** get_kernel_node_count: (total - 2) / 2; total >= 6 here, so the
      unsigned subtraction does not wrap. */
  function KernelNodeCount(t: QTree): (r: nat)
    requires Valid(t)
    ensures r == t.dim - 2
  {
    (t.total - 2) / 2
  }

  /** set_connected: force the state of the pair a, b and return the state it
      had before. A node paired with itself reports false and changes nothing. */
  function SetConnected(t: QTree, a: nat, b: nat, newState: bool): (r: (bool, QTree))
    requires Valid(t) && a < t.total && b < t.total
    ensures Valid(r.1)
    ensures r.1.total == t.total && r.1.leafPlacement == t.leafPlacement
    ensures a == b ==> r == (false, t)
    ensures a != b ==> r.0 == IsConnected(t, a, b) && IsConnected(r.1, a, b) == newState
    ensures forall x: nat, y: nat :: x < t.total && y < t.total && !SamePair(x, y, a, b) ==>
              IsConnected(r.1, x, y) == IsConnected(t, x, y)
    ensures r.0 == newState ==> r.1 == t
  {
    if a == b then (false, t)
    else
      var previous := IsConnected(t, b, a);
      if previous != newState then
        if newState then (previous, Connect(t, a, b)) else (previous, Disconnect(t, a, b))
      else (previous, t)
  }

  /** No pair of nodes is connected. */
  predicate NoEdges(t: QTree)
    requires Valid(t)
  {
    forall x: nat, y: nat :: x < t.total && y < t.total ==> !IsConnected(t, x, y)
  }

  /** clear_all_connections: disconnect every pair j > i. The cache flags
      change exactly when some edge was actually removed. */
  method ClearAllConnections(t: QTree) returns (r: QTree)
    requires Valid(t)
    ensures Valid(r)
    ensures NoEdges(r)
    ensures EdgeCount(r) == 0
    ensures r.mustRecalculatePaths == (t.mustRecalculatePaths || EdgeCount(t) > 0)
    ensures r.fScoreGood == (t.fScoreGood && EdgeCount(t) == 0)
    ensures r == t.(adj := r.adj, mustRecalculatePaths := r.mustRecalculatePaths, fScoreGood := r.fScoreGood)
  {
    r := t;
    var i: nat := 0;
    while i < t.total
      invariant i <= t.total
      invariant Valid(r)
      invariant r == t.(adj := r.adj, mustRecalculatePaths := r.mustRecalculatePaths, fScoreGood := r.fScoreGood)
      invariant forall x :: 0 <= x < i ==> r.adj[x] == {}
      invariant forall x :: i <= x < t.total ==> r.adj[x] == t.adj[x]
      invariant r.mustRecalculatePaths == (t.mustRecalculatePaths || r.adj != t.adj)
      invariant r.fScoreGood == (t.fScoreGood && r.adj == t.adj)
    {
      var j: nat := i + 1;
      while j < t.total
        invariant i + 1 <= j <= t.total
        invariant Valid(r)
        invariant r == t.(adj := r.adj, mustRecalculatePaths := r.mustRecalculatePaths, fScoreGood := r.fScoreGood)
        invariant forall x :: 0 <= x < i ==> r.adj[x] == {}
        invariant forall x :: i < x < t.total ==> r.adj[x] == t.adj[x]
        invariant forall y :: y in r.adj[i] <==> y in t.adj[i] && y >= j
        invariant r.mustRecalculatePaths == (t.mustRecalculatePaths || r.adj != t.adj)
        invariant r.fScoreGood == (t.fScoreGood && r.adj == t.adj)
      {
        var res := SetConnected(r, j, i, false);
        if res.0 {
          assert j in t.adj[i] && j !in res.1.adj[i];
          assert res.1.adj[i] != t.adj[i];
        }
        r := res.1;
        j := j + 1;
      }
      assert r.adj[i] == {};
      i := i + 1;
    }
    EmptyRowsNoEdges(r);
    EmptyRowsDiffer(t, r);
  }

  lemma EmptyRowsNoEdges(t: QTree)
    requires Valid(t)
    requires forall x :: 0 <= x < t.total ==> t.adj[x] == {}
    ensures NoEdges(t)
    ensures EdgeCount(t) == 0
  {
    SumSizesAllEmpty(t.adj);
  }

  lemma {:induction false} SumSizesAllEmpty(s: seq<set<nat>>)
    requires forall x :: 0 <= x < |s| ==> s[x] == {}
    ensures SumSizes(s) == 0
  {
    if |s| > 0 {
      SumSizesAllEmpty(s[..|s| - 1]);
    }
  }

  /** A graph with edges differs from the edgeless graph of the same size. */
  lemma EmptyRowsDiffer(t: QTree, r: QTree)
    requires Valid(t) && Valid(r) && r.total == t.total
    requires forall x :: 0 <= x < r.total ==> r.adj[x] == {}
    ensures r.adj != t.adj <==> EdgeCount(t) > 0
  {
    if r.adj == t.adj {
      SumSizesAllEmpty(t.adj);
    } else {
      var x :| 0 <= x < t.total && t.adj[x] != r.adj[x];
      SumSizesPositive(t.adj, x);
    }
  }

  lemma {:induction false} SumSizesPositive(s: seq<set<nat>>, x: nat)
    requires x < |s| && s[x] != {}
    ensures SumSizes(s) > 0
  {
    var n := |s| - 1;
    if x < n {
      SumSizesPositive(s[..n], x);
    } else {
      assert |s[n]| > 0;
    }
  }
}
