/** The two tree rearrangements of QSearchTree: subtree interchange and
    subtree transfer. The random picks are parameters constrained by the
    conditions that end the source's picking loops; the path between the two
    picks comes from the next-hop table. Each connect/disconnect keeps its
    assertion: a failed one ends the run, modelled as `None`. */
module QTreeMutation {
  import opened Common
  import opened QTreeGraph
  import opened QTreeLeaves
  import opened QTreePath

  /** can_subtree_transfer: the tree has at least nine nodes, that is, at
      least six leaves. */
  function CanSubtreeTransfer(t: QTree): (r: bool)
    ensures Valid(t) ==> (r <==> t.dim >= 6)
  {
    t.total >= 9
  }

  /** can_subtree_interchange: the tree has at least eleven nodes, that is,
      at least seven leaves. */
  function CanSubtreeInterchange(t: QTree): (r: bool)
    ensures Valid(t) ==> (r <==> t.dim >= 7)
  {
    t.total >= 11
  }

  /** connect, or `None` when its assertion fails: it succeeds exactly
      when the two nodes are distinct, in range and not yet joined, and then
      joins them and invalidates the caches. */
  function TryConnect(t: QTree, a: nat, b: nat): (r: Option<QTree>)
    requires Valid(t)
    ensures r.Some? <==> a < t.total && b < t.total && a != b && !IsConnected(t, a, b)
    ensures r.Some? ==> Valid(r.value) && r.value == t.(adj := r.value.adj, mustRecalculatePaths := true, fScoreGood := false)
    ensures r.Some? ==> IsConnected(r.value, a, b)
  {
    if CanConnect(t, a, b) then Some(Connect(t, a, b)) else None
  }

  /** disconnect, or `None` when its assertion fails: it succeeds exactly
      when the two nodes are joined, and then separates them and invalidates
      the caches. */
  function TryDisconnect(t: QTree, a: nat, b: nat): (r: Option<QTree>)
    requires Valid(t)
    ensures r.Some? <==> a < t.total && b < t.total && IsConnected(t, a, b)
    ensures r.Some? ==> Valid(r.value) && r.value == t.(adj := r.value.adj, mustRecalculatePaths := true, fScoreGood := false)
    ensures r.Some? ==> !IsConnected(r.value, a, b)
  {
    if CanDisconnect(t, a, b) then Some(Disconnect(t, a, b)) else None
  }

  /** The picks simple_mutation_subtree_interchange's loop accepts: two
      distinct kernel nodes more than three path entries apart. */
  predicate InterchangePicks(t: QTree, spm: seq<seq<nat>>, k1: nat, k2: nat)
    requires Valid(t)
  {
    && TableShape(spm, t.total)
    && IsNodePick(t, KernelKind, k1)
    && IsNodePickBut(t, KernelKind, k2, k1)
    && |FindPathFast(spm, t.total, k1, k2)| > 3
  }

  /** simple_mutation_subtree_interchange: with path k1, n1, ..., n2, k2,
      swap the subtrees hanging at k1 and k2 by replacing the edges n1--k1
      and n2--k2 with n1--k2 and n2--k1. */
  function SubtreeInterchange(t: QTree, spm: seq<seq<nat>>, k1: nat, k2: nat): (r: Option<QTree>)
    requires Valid(t) && InterchangePicks(t, spm, k1, k2)
    ensures r.Some? ==> CanSubtreeInterchange(t)
    ensures r.Some? ==> Valid(r.value)
    ensures r.Some? ==> r.value == t.(adj := r.value.adj, mustRecalculatePaths := true, fScoreGood := false,
                                      lastSimpleMutations := t.lastSimpleMutations + 1)
  {
    if !CanSubtreeInterchange(t) then None
    else
      var path := FindPathFast(spm, t.total, k1, k2);
      var n1 := path[1];
      var n2 := path[|path| - 2];
      var t1 :- TryDisconnect(t, n1, k1);
      var t2 :- TryDisconnect(t1, n2, k2);
      var t3 :- TryConnect(t2, n1, k2);
      var t4 :- TryConnect(t3, n2, k1);
      Some(t4.(lastSimpleMutations := t4.lastSimpleMutations + 1))
  }

  /** The picks simple_mutation_subtree_transfer's loops accept: any node k1,
      a kernel node k2 != k1 more than two path entries away, and a
      neighbour m3 of k2 (once k1--i1 is gone) other than the node before k2
      on the path. */
  predicate TransferPicks(t: QTree, spm: seq<seq<nat>>, k1: nat, k2: nat, m3: nat)
    requires Valid(t)
  {
    && TableShape(spm, t.total)
    && IsNodePick(t, AnyKind, k1)
    && IsNodePickBut(t, KernelKind, k2, k1)
    && var path := FindPathFast(spm, t.total, k1, k2);
    && |path| > 2
    && m3 < t.total
    && m3 != path[|path| - 2]
    && (CanDisconnect(t, k1, path[1]) ==>
          && IsConnected(t, m3, k2) && !SamePair(m3, k2, k1, path[1]))
  }

  /** simple_mutation_subtree_transfer: with path k1, i1, ..., k2, cut i1 out
      (joining its two other neighbours m1, m2), then splice it into the edge
      k2--m3 and hang k1 from it again. The source reads the first two
      neighbours of i1 without checking that there are two; reading past the
      end of the list stops the run here, like a failed assertion. */
  function SubtreeTransfer(t: QTree, spm: seq<seq<nat>>, k1: nat, k2: nat, m3: nat): (r: Option<QTree>)
    requires Valid(t) && TransferPicks(t, spm, k1, k2, m3)
    ensures r.Some? ==> CanSubtreeTransfer(t)
    ensures r.Some? ==> Valid(r.value)
    ensures r.Some? ==> r.value == t.(adj := r.value.adj, mustRecalculatePaths := true, fScoreGood := false,
                                      lastSimpleMutations := t.lastSimpleMutations + 1)
  {
    if !CanSubtreeTransfer(t) then None
    else
      var path := FindPathFast(spm, t.total, k1, k2);
      var i1 := path[1];
      var t1 :- TryDisconnect(t, k1, i1);
      var nb := Neighbors(t1, i1);
      if |nb| < 2 then None
      else
        var m1 := nb[0];
        var m2 := nb[1];
        var t2 :- TryDisconnect(t1, m1, i1);
        var t3 :- TryDisconnect(t2, m2, i1);
        var t4 :- TryDisconnect(t3, m3, k2);
        var t5 :- TryConnect(t4, m1, m2);
        var t6 :- TryConnect(t5, k2, i1);
        var t7 :- TryConnect(t6, m3, i1);
        var t8 :- TryConnect(t7, k1, i1);
        Some(t8.(lastSimpleMutations := t8.lastSimpleMutations + 1))
  }

  /** A successful interchange is the four edge operations in the source's
      order, each one allowed where it happens. */
  lemma SubtreeInterchangeSteps(t: QTree, spm: seq<seq<nat>>, k1: nat, k2: nat)
    returns (n1: nat, n2: nat, t1: QTree, t2: QTree, t3: QTree, t4: QTree)
    requires Valid(t) && InterchangePicks(t, spm, k1, k2)
    requires SubtreeInterchange(t, spm, k1, k2).Some?
    ensures var path := FindPathFast(spm, t.total, k1, k2);
            n1 == path[1] && n2 == path[|path| - 2]
    ensures CanDisconnect(t, n1, k1) && t1 == Disconnect(t, n1, k1)
    ensures CanDisconnect(t1, n2, k2) && t2 == Disconnect(t1, n2, k2)
    ensures CanConnect(t2, n1, k2) && t3 == Connect(t2, n1, k2)
    ensures CanConnect(t3, n2, k1) && t4 == Connect(t3, n2, k1)
    ensures SubtreeInterchange(t, spm, k1, k2).value == t4.(lastSimpleMutations := t4.lastSimpleMutations + 1)
  {
    var path := FindPathFast(spm, t.total, k1, k2);
    n1, n2 := path[1], path[|path| - 2];
    t1 := TryDisconnect(t, n1, k1).value;
    t2 := TryDisconnect(t1, n2, k2).value;
    t3 := TryConnect(t2, n1, k2).value;
    t4 := TryConnect(t3, n2, k1).value;
  }

  /** A successful transfer is the eight edge operations in the source's
      order, each one allowed where it happens; m1 and m2 are the first two
      remaining neighbours of i1 once k1 is cut off. */
  lemma SubtreeTransferSteps(t: QTree, spm: seq<seq<nat>>, k1: nat, k2: nat, m3: nat)
    returns (i1: nat, m1: nat, m2: nat, t1: QTree, t2: QTree, t3: QTree, t4: QTree,
             t5: QTree, t6: QTree, t7: QTree, t8: QTree)
    requires Valid(t) && TransferPicks(t, spm, k1, k2, m3)
    requires SubtreeTransfer(t, spm, k1, k2, m3).Some?
    ensures i1 == FindPathFast(spm, t.total, k1, k2)[1]
    ensures CanDisconnect(t, k1, i1) && t1 == Disconnect(t, k1, i1)
    ensures i1 < t.total && |Neighbors(t1, i1)| >= 2
    ensures m1 == Neighbors(t1, i1)[0] && m2 == Neighbors(t1, i1)[1]
    ensures CanDisconnect(t1, m1, i1) && t2 == Disconnect(t1, m1, i1)
    ensures CanDisconnect(t2, m2, i1) && t3 == Disconnect(t2, m2, i1)
    ensures CanDisconnect(t3, m3, k2) && t4 == Disconnect(t3, m3, k2)
    ensures CanConnect(t4, m1, m2) && t5 == Connect(t4, m1, m2)
    ensures CanConnect(t5, k2, i1) && t6 == Connect(t5, k2, i1)
    ensures CanConnect(t6, m3, i1) && t7 == Connect(t6, m3, i1)
    ensures CanConnect(t7, k1, i1) && t8 == Connect(t7, k1, i1)
    ensures SubtreeTransfer(t, spm, k1, k2, m3).value == t8.(lastSimpleMutations := t8.lastSimpleMutations + 1)
  {
    i1 := FindPathFast(spm, t.total, k1, k2)[1];
    t1 := TryDisconnect(t, k1, i1).value;
    var nb := Neighbors(t1, i1);
    m1, m2 := nb[0], nb[1];
    t2 := TryDisconnect(t1, m1, i1).value;
    t3 := TryDisconnect(t2, m2, i1).value;
    t4 := TryDisconnect(t3, m3, k2).value;
    t5 := TryConnect(t4, m1, m2).value;
    t6 := TryConnect(t5, k2, i1).value;
    t7 := TryConnect(t6, m3, i1).value;
    t8 := TryConnect(t7, k1, i1).value;
  }

  /** The interchange keeps every node's degree and the number of edges. */
  lemma SubtreeInterchangeKeepsDegrees(t: QTree, spm: seq<seq<nat>>, k1: nat, k2: nat)
    requires Valid(t) && InterchangePicks(t, spm, k1, k2)
    ensures var r := SubtreeInterchange(t, spm, k1, k2);
            r.Some? ==>
              && (forall x: nat :: x < t.total ==> Degree(r.value, x) == Degree(t, x))
              && EdgeCount(r.value) == EdgeCount(t)
  {
    var r := SubtreeInterchange(t, spm, k1, k2);
    if r.Some? {
      var n1, n2, t1, t2, t3, t4 := SubtreeInterchangeSteps(t, spm, k1, k2);
      forall x: nat | x < t.total
        ensures Degree(t4, x) == Degree(t, x)
      {
        DisconnectDegreeAt(t, n1, k1, x);
        DisconnectDegreeAt(t1, n2, k2, x);
        ConnectDegreeAt(t2, n1, k2, x);
        ConnectDegreeAt(t3, n2, k1, x);
      }
      SameEdgesSameDegrees(t4, r.value);
      DisconnectEdgeCount(t, n1, k1);
      DisconnectEdgeCount(t1, n2, k2);
      ConnectEdgeCount(t2, n1, k2);
      ConnectEdgeCount(t3, n2, k1);
    }
  }

  /** The interchange cuts n1--k1 and n2--k2, adds n1--k2 and n2--k1, and
      leaves every other pair of nodes as it was. */
  lemma SubtreeInterchangeRewires(t: QTree, spm: seq<seq<nat>>, k1: nat, k2: nat)
    requires Valid(t) && InterchangePicks(t, spm, k1, k2)
    ensures var r := SubtreeInterchange(t, spm, k1, k2);
            var path := FindPathFast(spm, t.total, k1, k2);
            var n1 := path[1];
            var n2 := path[|path| - 2];
            r.Some? ==>
              forall x: nat, y: nat :: x < t.total && y < t.total ==>
                (IsConnected(r.value, x, y) <==>
                   || SamePair(x, y, n1, k2) || SamePair(x, y, n2, k1)
                   || (!SamePair(x, y, n1, k1) && !SamePair(x, y, n2, k2) && IsConnected(t, x, y)))
  {
    var r := SubtreeInterchange(t, spm, k1, k2);
    if r.Some? {
      var n1, n2, t1, t2, t3, t4 := SubtreeInterchangeSteps(t, spm, k1, k2);
      assert r.value.adj == t4.adj;
      forall x: nat, y: nat | x < t.total && y < t.total
        ensures IsConnected(r.value, x, y)
                == (SamePair(x, y, n2, k1) || SamePair(x, y, n1, k2) ||
                    (!SamePair(x, y, n2, k2) && !SamePair(x, y, n1, k1) && IsConnected(t, x, y)))
      {
        DisconnectAt(t, n1, k1, x, y);
        DisconnectAt(t1, n2, k2, x, y);
        ConnectAt(t2, n1, k2, x, y);
        ConnectAt(t3, n2, k1, x, y);
      }
    }
  }

  /** The transfer removes four edges and adds four, and every node ends
      with as many neighbours as it started with. */
  lemma SubtreeTransferKeepsDegrees(t: QTree, spm: seq<seq<nat>>, k1: nat, k2: nat, m3: nat)
    requires Valid(t) && TransferPicks(t, spm, k1, k2, m3)
    ensures var r := SubtreeTransfer(t, spm, k1, k2, m3);
            r.Some? ==>
              && (forall x: nat :: x < t.total ==> Degree(r.value, x) == Degree(t, x))
              && EdgeCount(r.value) == EdgeCount(t)
  {
    var r := SubtreeTransfer(t, spm, k1, k2, m3);
    if r.Some? {
      var i1, m1, m2, t1, t2, t3, t4, t5, t6, t7, t8 := SubtreeTransferSteps(t, spm, k1, k2, m3);
      forall x: nat | x < t.total
        ensures Degree(t8, x) == Degree(t, x)
      {
        DisconnectDegreeAt(t, k1, i1, x);
        DisconnectDegreeAt(t1, m1, i1, x);
        DisconnectDegreeAt(t2, m2, i1, x);
        DisconnectDegreeAt(t3, m3, k2, x);
        ConnectDegreeAt(t4, m1, m2, x);
        ConnectDegreeAt(t5, k2, i1, x);
        ConnectDegreeAt(t6, m3, i1, x);
        ConnectDegreeAt(t7, k1, i1, x);
      }
      SameEdgesSameDegrees(t8, r.value);
      DisconnectEdgeCount(t, k1, i1);
      DisconnectEdgeCount(t1, m1, i1);
      DisconnectEdgeCount(t2, m2, i1);
      DisconnectEdgeCount(t3, m3, k2);
      ConnectEdgeCount(t4, m1, m2);
      ConnectEdgeCount(t5, k2, i1);
      ConnectEdgeCount(t6, m3, i1);
      ConnectEdgeCount(t7, k1, i1);
    }
  }

  /** The transfer cuts k1--i1, m1--i1, m2--i1 and m3--k2, then adds
      m1--m2, k2--i1, m3--i1 and k1--i1 again, where m1, m2 are the first two
      neighbours of i1 once k1 is cut off; every other pair of nodes is left
      as it was. So i1 ends between k2 and m3, still carrying k1, and its two
      former neighbours are joined to each other. */
  lemma SubtreeTransferRewires(t: QTree, spm: seq<seq<nat>>, k1: nat, k2: nat, m3: nat)
    requires Valid(t) && TransferPicks(t, spm, k1, k2, m3)
    ensures var r := SubtreeTransfer(t, spm, k1, k2, m3);
            var i1 := FindPathFast(spm, t.total, k1, k2)[1];
            r.Some? ==>
              && CanDisconnect(t, k1, i1) && IsConnected(t, m3, k2)
              && var nb := Neighbors(Disconnect(t, k1, i1), i1);
                 && |nb| >= 2
                 && forall x: nat, y: nat :: x < t.total && y < t.total ==>
                      (IsConnected(r.value, x, y) <==>
                         || SamePair(x, y, nb[0], nb[1]) || SamePair(x, y, k2, i1)
                         || SamePair(x, y, m3, i1) || SamePair(x, y, k1, i1)
                         || (&& !SamePair(x, y, nb[0], i1) && !SamePair(x, y, nb[1], i1)
                             && !SamePair(x, y, m3, k2) && IsConnected(t, x, y)))
  {
    var r := SubtreeTransfer(t, spm, k1, k2, m3);
    if r.Some? {
      var i1, m1, m2, t1, t2, t3, t4, t5, t6, t7, t8 := SubtreeTransferSteps(t, spm, k1, k2, m3);
      assert r.value.adj == t8.adj;
      forall x: nat, y: nat | x < t.total && y < t.total
        ensures IsConnected(r.value, x, y)
                == (SamePair(x, y, k1, i1) || SamePair(x, y, m3, i1) ||
                    SamePair(x, y, k2, i1) || SamePair(x, y, m1, m2) ||
                    (!SamePair(x, y, m3, k2) && !SamePair(x, y, m2, i1) &&
                     !SamePair(x, y, m1, i1) && !SamePair(x, y, k1, i1) && IsConnected(t, x, y)))
      {
        DisconnectAt(t, k1, i1, x, y);
        DisconnectAt(t1, m1, i1, x, y);
        DisconnectAt(t2, m2, i1, x, y);
        DisconnectAt(t3, m3, k2, x, y);
        ConnectAt(t4, m1, m2, x, y);
        ConnectAt(t5, k2, i1, x, y);
        ConnectAt(t6, m3, i1, x, y);
        ConnectAt(t7, k1, i1, x, y);
      }
    }
  }

  /** The interchange completes whenever its four edge operations are
      allowed on the tree it starts from: n1--k1 and n2--k2 are edges,
      n1--k2 and n2--k1 are not, and n2 is not k1 itself. */
  lemma SubtreeInterchangeCompletes(t: QTree, spm: seq<seq<nat>>, k1: nat, k2: nat)
    requires Valid(t) && InterchangePicks(t, spm, k1, k2) && CanSubtreeInterchange(t)
    requires var path := FindPathFast(spm, t.total, k1, k2);
             var n1 := path[1];
             var n2 := path[|path| - 2];
             && n2 != k1
             && IsConnected(t, n1, k1) && IsConnected(t, n2, k2)
             && !IsConnected(t, n1, k2) && !IsConnected(t, n2, k1)
    ensures SubtreeInterchange(t, spm, k1, k2).Some?
  {
    var path := FindPathFast(spm, t.total, k1, k2);
    var n1, n2 := path[1], path[|path| - 2];
    var t1, t2, t3 := InterchangeEdgesAllowed(t, k1, k2, n1, n2);
  }

  /** The four edge operations of the interchange, each allowed where it
      happens. */
  lemma InterchangeEdgesAllowed(t: QTree, k1: nat, k2: nat, n1: nat, n2: nat)
    returns (t1: QTree, t2: QTree, t3: QTree)
    requires Valid(t) && k1 < t.total && k2 < t.total && n1 < t.total && n2 < t.total
    requires k1 != k2 && n1 != k2 && n2 != k1
    requires IsConnected(t, n1, k1) && IsConnected(t, n2, k2)
    requires !IsConnected(t, n1, k2) && !IsConnected(t, n2, k1)
    ensures TryDisconnect(t, n1, k1) == Some(t1)
    ensures TryDisconnect(t1, n2, k2) == Some(t2)
    ensures TryConnect(t2, n1, k2) == Some(t3)
    ensures TryConnect(t3, n2, k1).Some?
  {
    t1 := Disconnect(t, n1, k1);
    DisconnectAt(t, n1, k1, n2, k2);
    t2 := Disconnect(t1, n2, k2);
    DisconnectAt(t, n1, k1, n1, k2);
    DisconnectAt(t1, n2, k2, n1, k2);
    t3 := Connect(t2, n1, k2);
    DisconnectAt(t, n1, k1, n2, k1);
    DisconnectAt(t1, n2, k2, n2, k1);
    IsConnectedSymmetricIrreflexive(t, n2, k2);
    ConnectAt(t2, n1, k2, n2, k1);
  }

  /** The transfer completes whenever its eight edge operations are allowed
      on the tree it starts from: k1--i1 is an edge, i1 keeps two neighbours
      m1, m2 once it is cut, m1--m2, k2--i1 and m3--i1 are not edges, and m3
      is not k1. The picks already make m3--k2 an edge. */
  lemma SubtreeTransferCompletes(t: QTree, spm: seq<seq<nat>>, k1: nat, k2: nat, m3: nat)
    requires Valid(t) && TransferPicks(t, spm, k1, k2, m3) && CanSubtreeTransfer(t)
    requires var i1 := FindPathFast(spm, t.total, k1, k2)[1];
             && IsConnected(t, k1, i1)
             && var nb := Neighbors(Disconnect(t, k1, i1), i1);
                && |nb| >= 2 && nb[0] < t.total && nb[1] < t.total
                && !IsConnected(t, nb[0], nb[1]) && !IsConnected(t, k2, i1)
                && !IsConnected(t, m3, i1) && m3 != k1
    ensures SubtreeTransfer(t, spm, k1, k2, m3).Some?
  {
    var i1 := FindPathFast(spm, t.total, k1, k2)[1];
    var t1, t2, t3, t4, t5, t6, t7 := TransferEdgesAllowed(t, k1, k2, m3, i1);
  }

  /** The eight edge operations of the transfer, each allowed where it
      happens; m1, m2 are the first two neighbours of i1 once k1 is cut. */
  lemma TransferEdgesAllowed(t: QTree, k1: nat, k2: nat, m3: nat, i1: nat)
    returns (t1: QTree, t2: QTree, t3: QTree, t4: QTree, t5: QTree, t6: QTree, t7: QTree)
    requires Valid(t) && k1 < t.total && k2 < t.total && m3 < t.total && i1 < t.total
    requires k1 != k2 && k2 != i1 && m3 != k1
    requires IsConnected(t, k1, i1) && IsConnected(t, m3, k2) && !SamePair(m3, k2, k1, i1)
    requires !IsConnected(t, k2, i1) && !IsConnected(t, m3, i1)
    requires var nb := Neighbors(Disconnect(t, k1, i1), i1);
             && |nb| >= 2 && nb[0] < t.total && nb[1] < t.total
             && !IsConnected(t, nb[0], nb[1])
    ensures TryDisconnect(t, k1, i1) == Some(t1)
    ensures var nb := Neighbors(t1, i1);
            && |nb| >= 2
            && TryDisconnect(t1, nb[0], i1) == Some(t2)
            && TryDisconnect(t2, nb[1], i1) == Some(t3)
            && TryDisconnect(t3, m3, k2) == Some(t4)
            && TryConnect(t4, nb[0], nb[1]) == Some(t5)
            && TryConnect(t5, k2, i1) == Some(t6)
            && TryConnect(t6, m3, i1) == Some(t7)
            && TryConnect(t7, k1, i1).Some?
  {
    var m1, m2;
    t1, m1, m2, t2, t3, t4 := TransferCutsAllowed(t, k1, k2, m3, i1);
    t5, t6, t7 := TransferJoinsAllowed(t4, k1, k2, m3, i1, m1, m2);
  }

  /** The four cuts of the transfer, each allowed where it happens, and the
      four edges it adds afterwards all absent once they are done. */
  lemma TransferCutsAllowed(t: QTree, k1: nat, k2: nat, m3: nat, i1: nat)
    returns (t1: QTree, m1: nat, m2: nat, t2: QTree, t3: QTree, t4: QTree)
    requires Valid(t) && k1 < t.total && k2 < t.total && m3 < t.total && i1 < t.total
    requires k2 != i1
    requires IsConnected(t, k1, i1) && IsConnected(t, m3, k2) && !SamePair(m3, k2, k1, i1)
    requires !IsConnected(t, k2, i1) && !IsConnected(t, m3, i1)
    requires var nb := Neighbors(Disconnect(t, k1, i1), i1);
             && |nb| >= 2 && nb[0] < t.total && nb[1] < t.total
             && !IsConnected(t, nb[0], nb[1])
    ensures CanDisconnect(t, k1, i1) && t1 == Disconnect(t, k1, i1)
    ensures |Neighbors(t1, i1)| >= 2 && m1 == Neighbors(t1, i1)[0] && m2 == Neighbors(t1, i1)[1]
    ensures CanDisconnect(t1, m1, i1) && t2 == Disconnect(t1, m1, i1)
    ensures CanDisconnect(t2, m2, i1) && t3 == Disconnect(t2, m2, i1)
    ensures CanDisconnect(t3, m3, k2) && t4 == Disconnect(t3, m3, k2)
    ensures m1 != m2 && m1 != i1 && m2 != i1 && m3 != i1 && k1 != i1
    ensures !IsConnected(t4, m1, m2) && !IsConnected(t4, k2, i1)
    ensures !IsConnected(t4, m3, i1) && !IsConnected(t4, k1, i1)
  {
    t1 := Disconnect(t, k1, i1);
    var nb := Neighbors(t1, i1);
    m1, m2 := nb[0], nb[1];
    NeighborsFacts(t1, i1, m1, m2);
    IsConnectedSymmetricIrreflexive(t, m3, k2);
    IsConnectedSymmetricIrreflexive(t, k2, i1);
    IsConnectedSymmetricIrreflexive(t, m1, m2);
    t2 := Disconnect(t1, m1, i1);
    DisconnectAt(t1, m1, i1, m2, i1);
    t3 := Disconnect(t2, m2, i1);
    DisconnectAt(t, k1, i1, m3, k2);
    DisconnectAt(t1, m1, i1, m3, k2);
    DisconnectAt(t2, m2, i1, m3, k2);
    t4 := Disconnect(t3, m3, k2);
    FourCutsKeepNonEdge(t, t1, t2, t3, t4, k1, i1, m1, i1, m2, i1, m3, k2, m1, m2);
    FourCutsKeepNonEdge(t, t1, t2, t3, t4, k1, i1, m1, i1, m2, i1, m3, k2, k2, i1);
    FourCutsKeepNonEdge(t, t1, t2, t3, t4, k1, i1, m1, i1, m2, i1, m3, k2, m3, i1);
    DisconnectAt(t1, m1, i1, k1, i1);
    DisconnectAt(t2, m2, i1, k1, i1);
    DisconnectAt(t3, m3, k2, k1, i1);
  }

  /** The four joins of the transfer, each allowed where it happens. */
  lemma TransferJoinsAllowed(t4: QTree, k1: nat, k2: nat, m3: nat, i1: nat, m1: nat, m2: nat)
    returns (t5: QTree, t6: QTree, t7: QTree)
    requires Valid(t4) && k1 < t4.total && k2 < t4.total && m3 < t4.total && i1 < t4.total
    requires m1 < t4.total && m2 < t4.total
    requires m1 != m2 && m1 != i1 && m2 != i1 && m3 != i1 && k1 != i1 && k2 != i1
    requires k1 != k2 && m3 != k1 && m3 != k2
    requires !IsConnected(t4, m1, m2) && !IsConnected(t4, k2, i1)
    requires !IsConnected(t4, m3, i1) && !IsConnected(t4, k1, i1)
    ensures CanConnect(t4, m1, m2) && t5 == Connect(t4, m1, m2)
    ensures CanConnect(t5, k2, i1) && t6 == Connect(t5, k2, i1)
    ensures CanConnect(t6, m3, i1) && t7 == Connect(t6, m3, i1)
    ensures CanConnect(t7, k1, i1)
  {
    t5 := Connect(t4, m1, m2);
    ConnectAt(t4, m1, m2, k2, i1);
    t6 := Connect(t5, k2, i1);
    ConnectAt(t4, m1, m2, m3, i1);
    ConnectAt(t5, k2, i1, m3, i1);
    t7 := Connect(t6, m3, i1);
    ConnectAt(t4, m1, m2, k1, i1);
    ConnectAt(t5, k2, i1, k1, i1);
    ConnectAt(t6, m3, i1, k1, i1);
  }

  /** Two distinct entries of the neighbour list are neighbours. */
  lemma NeighborsFacts(t: QTree, a: nat, m1: nat, m2: nat)
    requires Valid(t) && a < t.total
    requires |Neighbors(t, a)| >= 2 && m1 == Neighbors(t, a)[0] && m2 == Neighbors(t, a)[1]
    ensures m1 < t.total && m2 < t.total && m1 != m2
    ensures IsConnected(t, m1, a) && IsConnected(t, m2, a)
  {
    assert m1 in Neighbors(t, a) && m2 in Neighbors(t, a);
  }

  /** Cutting edges never joins a pair that was not joined. */
  lemma FourCutsKeepNonEdge(t: QTree, t1: QTree, t2: QTree, t3: QTree, t4: QTree,
                            a1: nat, b1: nat, a2: nat, b2: nat, a3: nat, b3: nat, a4: nat, b4: nat,
                            x: nat, y: nat)
    requires Valid(t) && CanDisconnect(t, a1, b1) && t1 == Disconnect(t, a1, b1)
    requires CanDisconnect(t1, a2, b2) && t2 == Disconnect(t1, a2, b2)
    requires CanDisconnect(t2, a3, b3) && t3 == Disconnect(t2, a3, b3)
    requires CanDisconnect(t3, a4, b4) && t4 == Disconnect(t3, a4, b4)
    requires x < t.total && y < t.total && !IsConnected(t, x, y)
    ensures !IsConnected(t4, x, y)
  {
    DisconnectAt(t, a1, b1, x, y);
    DisconnectAt(t1, a2, b2, x, y);
    DisconnectAt(t2, a3, b3, x, y);
    DisconnectAt(t3, a4, b4, x, y);
  }

  /** A rearrangement that keeps every degree and the placement keeps the
      tree invariant and ternary shape: leaves stay below dim, so the leaf
      swap's indexing stays in bounds after any number of mutations. */
  lemma SameDegreesKeepInv(t: QTree, u: QTree)
    requires TreeInv(t) && Valid(u) && u.total == t.total && u.dim == t.dim
    requires u.leafPlacement == t.leafPlacement
    requires forall x: nat :: x < t.total ==> Degree(u, x) == Degree(t, x)
    ensures TreeInv(u)
    ensures Ternary(t) ==> Ternary(u)
  {
  }

  lemma SubtreeInterchangeKeepsInv(t: QTree, spm: seq<seq<nat>>, k1: nat, k2: nat)
    requires TreeInv(t) && InterchangePicks(t, spm, k1, k2)
    ensures var r := SubtreeInterchange(t, spm, k1, k2);
            r.Some? ==> TreeInv(r.value) && (Ternary(t) ==> Ternary(r.value))
  {
    var r := SubtreeInterchange(t, spm, k1, k2);
    if r.Some? {
      SubtreeInterchangeKeepsDegrees(t, spm, k1, k2);
      SameDegreesKeepInv(t, r.value);
    }
  }

  lemma SubtreeTransferKeepsInv(t: QTree, spm: seq<seq<nat>>, k1: nat, k2: nat, m3: nat)
    requires TreeInv(t) && TransferPicks(t, spm, k1, k2, m3)
    ensures var r := SubtreeTransfer(t, spm, k1, k2, m3);
            r.Some? ==> TreeInv(r.value) && (Ternary(t) ==> Ternary(r.value))
  {
    var r := SubtreeTransfer(t, spm, k1, k2, m3);
    if r.Some? {
      SubtreeTransferKeepsDegrees(t, spm, k1, k2, m3);
      SameDegreesKeepInv(t, r.value);
    }
  }
}
