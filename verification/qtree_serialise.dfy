/** The two textual renderings of a quartet search tree: to_dot (a Graphviz
    graph) and to_json. Both name a node by its label when it is a leaf and
    the matrix carries labels, and as "node <index>" otherwise. */
module QTreeSerialise {
  import opened Common
  import opened Decimal
  import opened QTreeGraph

  /** The name a node is written under. */
  function Label(t: QTree, i: nat): string
    requires Valid(t) && i < t.total
  {
    if i < t.dim && t.labels.Some? then t.labels.value[i] else "node " + NatToString(i)
  }

  /** A node without a given name is written as "node " and its index, and
      the index reads back from the name. */
  lemma GeneratedLabelNamesNode(t: QTree, i: nat)
    requires Valid(t) && i < t.total && !(i < t.dim && t.labels.Some?)
    ensures var l := Label(t, i);
            |l| > 5 && l[..5] == "node " && ReadNat(l[5..]) == Some((i, ""))
  {
    var l := Label(t, i);
    assert l[5..] == NatToString(i) + "";
    ReadNatOfNatToString(i, "");
  }

  /** Two nodes without given names are written under different names. */
  lemma GeneratedLabelsDistinct(t: QTree, i: nat, j: nat)
    requires Valid(t) && i < t.total && j < t.total && i != j
    requires !(i < t.dim && t.labels.Some?) && !(j < t.dim && t.labels.Some?)
    ensures Label(t, i) != Label(t, j)
  {
    GeneratedLabelNamesNode(t, i);
    GeneratedLabelNamesNode(t, j);
  }

  /** The strings with `sep` between each two neighbours. */
  function Join(parts: seq<string>, sep: string): string {
    if |parts| == 0 then ""
    else if |parts| == 1 then parts[0]
    else Join(parts[..|parts| - 1], sep) + sep + parts[|parts| - 1]
  }

  // ---------------------------------------------------------------- to_dot

  /** i < j, or i == j with the second components ordered: the order the
      nested loops of to_dot visit pairs in. */
  predicate PairLess(p: (nat, nat), q: (nat, nat)) {
    p.0 < q.0 || (p.0 == q.0 && p.1 < q.1)
  }

  /** The edges the inner loop of to_dot finds for row i from column j on. */
  function RowPairs(t: QTree, i: nat, j: nat): (r: seq<(nat, nat)>)
    requires Valid(t) && i < t.total && i <= j <= t.total
    ensures forall p :: p in r ==> p.0 == i
    ensures forall y: nat :: (i, y) in r <==> j <= y < t.total && IsConnected(t, i, y)
    ensures forall a, b :: 0 <= a < b < |r| ==> r[a].1 < r[b].1
    ensures |r| == |AdjFrom(t, i, j)|
    decreases t.total - j
  {
    if j == t.total then
      assert AdjFrom(t, i, j) == {};
      []
    else
      var rest := RowPairs(t, i, j + 1);
      assert forall a :: 0 <= a < |rest| ==> rest[a] in rest;
      if IsConnected(t, i, j) then
        assert AdjFrom(t, i, j) == {j} + AdjFrom(t, i, j + 1);
        [(i, j)] + rest
      else
        assert AdjFrom(t, i, j) == AdjFrom(t, i, j + 1);
        rest
  }

  /** The stored neighbours of i from j on. */
  function AdjFrom(t: QTree, i: nat, j: nat): set<nat>
    requires Valid(t) && i < t.total
  {
    set y | y in t.adj[i] && y >= j
  }

  /** The edges of the first n rows, in the order to_dot writes them. */
  function EdgePairs(t: QTree, n: nat): (r: seq<(nat, nat)>)
    requires Valid(t) && n <= t.total
    ensures forall p :: p in r <==> p.0 < p.1 < t.total && p.0 < n && IsConnected(t, p.0, p.1)
    ensures forall a, b :: 0 <= a < b < |r| ==> PairLess(r[a], r[b])
    ensures |r| == SumSizes(t.adj[..n])
  {
    if n == 0 then []
    else
      var prev := EdgePairs(t, n - 1);
      var row := RowPairs(t, n - 1, n - 1);
      assert forall a :: 0 <= a < |prev| ==> prev[a] in prev;
      assert forall a :: 0 <= a < |row| ==> row[a] in row;
      assert AdjFrom(t, n - 1, n - 1) == t.adj[n - 1];
      assert t.adj[..n][..n - 1] == t.adj[..n - 1];
      prev + row
  }

  /** Every edge appears once in to_dot's edge section, so it has as many
      lines as the tree has edges. */
  lemma EdgePairsAreTheEdges(t: QTree)
    requires Valid(t)
    ensures var r := EdgePairs(t, t.total);
            && (forall a, b :: 0 <= a < |r| && 0 <= b < |r| && a != b ==> r[a] != r[b])
            && (forall x: nat, y: nat :: x < t.total && y < t.total ==>
                  (IsConnected(t, x, y) <==> (x, y) in r || (y, x) in r))
            && |r| == EdgeCount(t)
  {
    var r := EdgePairs(t, t.total);
    assert t.adj[..t.total] == t.adj;
    forall a, b | 0 <= a < |r| && 0 <= b < |r| && a != b
      ensures r[a] != r[b]
    {
      if a < b {
        assert PairLess(r[a], r[b]);
      } else {
        assert PairLess(r[b], r[a]);
      }
    }
    forall x: nat, y: nat | x < t.total && y < t.total
      ensures IsConnected(t, x, y) <==> (x, y) in r || (y, x) in r
    {
      IsConnectedSymmetricIrreflexive(t, x, y);
    }
  }

  const DotHeader: string := "graph \"untitled\" {\n"
  const DotFooter: string := "}\n"
  const EdgeAttributes: string := " [weight=\"2\"];\n"

  /** What to_dot writes about one node: its index and its name. */
  datatype DotNode = DotNode(index: nat, name: string)

  /** The label line of a node. */
  function DotNodeLine(n: DotNode): string {
    NatToString(n.index) + " [label=\"" + n.name + "\"];\n"
  }

  function DotEdgeLine(p: (nat, nat)): string {
    NatToString(p.0) + " -- " + NatToString(p.1) + EdgeAttributes
  }

  /** The first n nodes with their names. */
  function DotNodes(t: QTree, n: nat): (r: seq<DotNode>)
    requires Valid(t) && n <= t.total
    ensures |r| == n && forall i :: 0 <= i < n ==> r[i] == DotNode(i, Label(t, i))
  {
    if n == 0 then [] else DotNodes(t, n - 1) + [DotNode(n - 1, Label(t, n - 1))]
  }

  /** One label line per node. */
  function NodeLines(nodes: seq<DotNode>): (r: seq<string>)
    ensures |r| == |nodes| && forall k :: 0 <= k < |nodes| ==> r[k] == DotNodeLine(nodes[k])
  {
    if |nodes| == 0 then [] else NodeLines(nodes[..|nodes| - 1]) + [DotNodeLine(nodes[|nodes| - 1])]
  }

  /** One edge line per pair. */
  function EdgeLines(edges: seq<(nat, nat)>): (r: seq<string>)
    ensures |r| == |edges| && forall k :: 0 <= k < |edges| ==> r[k] == DotEdgeLine(edges[k])
  {
    if |edges| == 0 then [] else EdgeLines(edges[..|edges| - 1]) + [DotEdgeLine(edges[|edges| - 1])]
  }

  /** A first line, two runs of lines and a last line, one after the other. */
  function Framed(first: string, a: seq<string>, b: seq<string>, last: string): (r: seq<string>)
    ensures |r| == |a| + |b| + 2 && r[0] == first && r[|r| - 1] == last
    ensures r[1 .. 1 + |a|] == a && r[1 + |a| .. |r| - 1] == b
  {
    var r := [first] + a + b + [last];
    assert r[1 .. 1 + |a|] == a && r[1 + |a| .. |r| - 1] == b;
    r
  }

  /** to_dot, line by line: the header, one label line per node, one line per
      edge (smaller endpoint first, in row order), the closing brace. */
  function DotLines(t: QTree): (r: seq<string>)
    requires Valid(t)
    ensures |r| == t.total + EdgeCount(t) + 2
    ensures r[0] == DotHeader && r[|r| - 1] == DotFooter
    ensures r[1 .. 1 + t.total] == NodeLines(DotNodes(t, t.total))
    ensures r[1 + t.total .. |r| - 1] == EdgeLines(EdgePairs(t, t.total))
  {
    assert t.adj[..t.total] == t.adj;
    var nodes := NodeLines(DotNodes(t, t.total));
    assert |nodes| == t.total;
    Framed(DotHeader, nodes, EdgeLines(EdgePairs(t, t.total)), DotFooter)
  }

  /** The lines written one after another. */
  function Concat(lines: seq<string>): (r: string)
    ensures |lines| == 0 ==> r == ""
    ensures |lines| > 0 ==> |lines[0]| <= |r| && r[..|lines[0]|] == lines[0]
  {
    if |lines| == 0 then "" else lines[0] + Concat(lines[1..])
  }

  /** Writing two runs of lines is writing the first run, then the second. */
  lemma {:induction false} ConcatAppend(a: seq<string>, b: seq<string>)
    ensures Concat(a + b) == Concat(a) + Concat(b)
    decreases |a|
  {
    if |a| == 0 {
      assert a + b == b;
    } else {
      assert (a + b)[1..] == a[1..] + b;
      ConcatAppend(a[1..], b);
    }
  }

  /** to_dot: the header, one line per node, one line per edge and the
      closing brace, as one string. */
  function ToDot(t: QTree): (r: string)
    requires Valid(t)
  {
    Concat(DotLines(t))
  }

  /** The text to_dot returns is the header, the node lines in index order,
      the edge lines in (i, j) order and the footer, each written once. */
  lemma ToDotLayout(t: QTree)
    requires Valid(t)
    ensures ToDot(t) == DotHeader + Concat(NodeLines(DotNodes(t, t.total)))
                        + Concat(EdgeLines(EdgePairs(t, t.total))) + DotFooter
  {
    assert t.adj[..t.total] == t.adj;
    ConcatFramed(DotHeader, NodeLines(DotNodes(t, t.total)), EdgeLines(EdgePairs(t, t.total)), DotFooter);
  }

  /** A framed run of lines is written as the first line, both runs and the
      last line. */
  lemma ConcatFramed(first: string, a: seq<string>, b: seq<string>, last: string)
    ensures Concat(Framed(first, a, b, last)) == first + Concat(a) + Concat(b) + last
  {
    ConcatAppend([first] + a + b, [last]);
    ConcatAppend([first] + a, b);
    ConcatAppend([first], a);
    assert Concat([last]) == last + Concat([]);
    assert Concat([first]) == first + Concat([]);
  }

  /** Read an edge line of the form "<i> -- <j> [weight="2"];". */
  function ParseEdgeLine(s: string): (r: Option<(nat, nat)>)
  {
    var first :- ReadNat(s);
    var rest := first.1;
    if |rest| < 4 || rest[..4] != " -- " then None
    else
      var second :- ReadNat(rest[4..]);
      if second.1 == EdgeAttributes then Some((first.0, second.0)) else None
  }

  /** Every edge line reads back as the edge it was written for. */
  lemma ParseEdgeLineRoundTrip(p: (nat, nat))
    ensures ParseEdgeLine(DotEdgeLine(p)) == Some(p)
  {
    var a := NatToString(p.0);
    var b := NatToString(p.1);
    var second := b + EdgeAttributes;
    var tail := " -- " + second;
    var line := DotEdgeLine(p);
    assert line == a + tail;
    ReadNatOfNatToString(p.0, tail);
    assert tail[..4] == " -- " && tail[4..] == second;
    ReadNatOfNatToString(p.1, EdgeAttributes);
    ParseEdgeLineOf(line, p.0, p.1, tail);
  }

  /** A line that reads as a number, " -- ", a number and the attributes is
      the edge between the two numbers. */
  lemma ParseEdgeLineOf(line: string, x: nat, y: nat, tail: string)
    requires ReadNat(line) == Some((x, tail))
    requires |tail| >= 4 && tail[..4] == " -- " && ReadNat(tail[4..]) == Some((y, EdgeAttributes))
    ensures ParseEdgeLine(line) == Some((x, y))
  {
  }

  /** ParseEdgeLine applied to every line. */
  function ParseEdgeLines(lines: seq<string>): (r: seq<Option<(nat, nat)>>)
    ensures |r| == |lines| && forall k :: 0 <= k < |lines| ==> r[k] == ParseEdgeLine(lines[k])
  {
    if |lines| == 0 then [] else ParseEdgeLines(lines[..|lines| - 1]) + [ParseEdgeLine(lines[|lines| - 1])]
  }

  /** Edge lines read back, one by one, as the edges they were written for. */
  lemma EdgeLinesParse(edges: seq<(nat, nat)>)
    ensures var parsed := ParseEdgeLines(EdgeLines(edges));
            |parsed| == |edges| && forall k :: 0 <= k < |edges| ==> parsed[k] == Some(edges[k])
  {
    var lines := EdgeLines(edges);
    forall k | 0 <= k < |edges|
      ensures ParseEdgeLine(lines[k]) == Some(edges[k])
    {
      ParseEdgeLineRoundTrip(edges[k]);
    }
  }

  /** The lines between the label lines and the closing brace of to_dot
      read back, one by one, as the edges in the order they were written. */
  lemma DotEdgeSectionParses(t: QTree)
    requires Valid(t)
    ensures var lines := DotLines(t);
            var edges := EdgePairs(t, t.total);
            var parsed := ParseEdgeLines(lines[1 + t.total .. |lines| - 1]);
            |parsed| == |edges| && forall k :: 0 <= k < |edges| ==> parsed[k] == Some(edges[k])
  {
    EdgeLinesParse(EdgePairs(t, t.total));
  }

  /** Reading back the edge lines of to_dot recovers exactly the tree's
      edges. */
  lemma DotEdgesRecoverGraph(t: QTree)
    requires Valid(t)
    ensures var lines := DotLines(t);
            var parsed := ParseEdgeLines(lines[1 + t.total .. |lines| - 1]);
            forall x: nat, y: nat :: x < t.total && y < t.total ==>
              (IsConnected(t, x, y) <==> Some((x, y)) in parsed || Some((y, x)) in parsed)
  {
    var lines := DotLines(t);
    DotEdgeSectionParses(t);
    ParsedEdgesAreTheEdges(t, ParseEdgeLines(lines[1 + t.total .. |lines| - 1]));
  }

  lemma ParsedEdgesAreTheEdges(t: QTree, parsed: seq<Option<(nat, nat)>>)
    requires Valid(t)
    requires var edges := EdgePairs(t, t.total);
             |parsed| == |edges| && forall k :: 0 <= k < |edges| ==> parsed[k] == Some(edges[k])
    ensures forall x: nat, y: nat :: x < t.total && y < t.total ==>
              (IsConnected(t, x, y) <==> Some((x, y)) in parsed || Some((y, x)) in parsed)
  {
    SomeEach(parsed, EdgePairs(t, t.total));
    EdgePairsAreTheEdges(t);
  }

  /** A list holding Some(e) for each e of `es` holds Some(p) exactly when
      `es` holds p. */
  lemma SomeEach<T>(parsed: seq<Option<T>>, es: seq<T>)
    requires |parsed| == |es| && forall k :: 0 <= k < |es| ==> parsed[k] == Some(es[k])
    ensures forall p :: Some(p) in parsed <==> p in es
  {
    forall p
      ensures Some(p) in parsed <==> p in es
    {
      if p in es {
        var k :| 0 <= k < |es| && es[k] == p;
        assert parsed[k] == Some(p);
      }
      if Some(p) in parsed {
        var k :| 0 <= k < |parsed| && parsed[k] == Some(p);
        assert es[k] == p;
      }
    }
  }

  // --------------------------------------------------------------- to_json

  /** Numbers separated by ", ", as the connections array is written. */
  function JoinNums(ns: seq<nat>): string {
    if |ns| == 0 then ""
    else if |ns| == 1 then NatToString(ns[0])
    else JoinNums(ns[..|ns| - 1]) + ", " + NatToString(ns[|ns| - 1])
  }

  /** Read a ", "-separated list of numbers; `None` when `s` is not one. */
  function ParseNumList(s: string): (r: Option<seq<nat>>)
    decreases |s|
  {
    if |s| == 0 then Some([])
    else
      var first :- ReadNat(s);
      var rest := first.1;
      if |rest| == 0 then Some([first.0])
      else if |rest| >= 2 && rest[..2] == ", " then
        var tail :- ParseNumList(rest[2..]);
        Some([first.0] + tail)
      else None
  }

  /** JoinNums written front to back. */
  lemma {:induction false} JoinNumsFront(ns: seq<nat>)
    requires |ns| >= 2
    ensures JoinNums(ns) == NatToString(ns[0]) + ", " + JoinNums(ns[1..])
    decreases |ns|
  {
    if |ns| > 2 {
      var init := ns[..|ns| - 1];
      JoinNumsFront(init);
      assert init[1..] == ns[1..][..|ns[1..]| - 1];
    }
  }

  /** The connections list reads back as the numbers written into it. */
  lemma {:induction false} ParseNumListRoundTrip(ns: seq<nat>)
    ensures ParseNumList(JoinNums(ns)) == Some(ns)
    decreases |ns|
  {
    if |ns| == 1 {
      ParseOneNum(ns[0]);
      assert [ns[0]] == ns;
    } else if |ns| >= 2 {
      ParseNumListRoundTrip(ns[1..]);
      ParseNumListStep(ns);
    }
  }

  /** A list of two or more numbers reads back once its tail does. */
  lemma ParseNumListStep(ns: seq<nat>)
    requires |ns| >= 2 && ParseNumList(JoinNums(ns[1..])) == Some(ns[1..])
    ensures ParseNumList(JoinNums(ns)) == Some(ns)
  {
    var rest := ns[1..];
    var text := JoinNums(rest);
    assert [ns[0]] + rest == ns;
    assert ParseNumList(text) == Some(rest);
    ParseNumCons(ns[0], text, rest);
    assert ParseNumList(NatToString(ns[0]) + ", " + text) == Some(ns);
    JoinNumsFront(ns);
    assert JoinNums(ns) == NatToString(ns[0]) + ", " + text;
  }

  lemma ParseOneNum(n: nat)
    ensures ParseNumList(NatToString(n)) == Some([n])
  {
    var s := NatToString(n);
    ReadNatOfNatToString(n, "");
    assert s + "" == s;
  }

  lemma ParseNumCons(n: nat, rest: string, ns: seq<nat>)
    requires ParseNumList(rest) == Some(ns)
    ensures ParseNumList(NatToString(n) + ", " + rest) == Some([n] + ns)
  {
    var tail := ", " + rest;
    assert NatToString(n) + ", " + rest == NatToString(n) + tail;
    ReadNatOfNatToString(n, tail);
    assert tail[..2] == ", " && tail[2..] == rest;
  }

  /** Appending one number to the list. */
  lemma JoinNumsSnoc(ns: seq<nat>, x: nat)
    ensures JoinNums(ns + [x]) == JoinNums(ns) + (if |ns| == 0 then "" else ", ") + NatToString(x)
  {
    assert (ns + [x])[..|ns|] == ns;
  }

  /** The "connections" loop of to_json, with its `first` flag: every node
      connected to i, ascending, separated by ", ". */
  method JsonConnections(t: QTree, i: nat) returns (r: string)
    requires Valid(t) && i < t.total
    ensures r == JoinNums(Neighbors(t, i))
    ensures ParseNumList(r) == Some(Neighbors(t, i))
  {
    r := "";
    var first := true;
    var j: nat := 0;
    while j < t.total
      invariant j <= t.total
      invariant r == JoinNums(NeighborsBelow(t, i, j))
      invariant first <==> |NeighborsBelow(t, i, j)| == 0
    {
      if IsConnected(t, i, j) {
        IsConnectedSymmetricIrreflexive(t, i, j);
        JoinNumsSnoc(NeighborsBelow(t, i, j), j);
        if !first {
          r := r + ", ";
        }
        r := r + NatToString(j);
        first := false;
      } else {
        IsConnectedSymmetricIrreflexive(t, i, j);
      }
      j := j + 1;
    }
    ParseNumListRoundTrip(Neighbors(t, i));
  }

  /** The JSON object to_json writes for a node with the given index, name
      and neighbours. */
  function JsonObject(index: nat, name: string, connections: string): string {
    "    {\n"
    + "      \"index\": " + NatToString(index) + ",\n"
    + "      \"label\": \"" + name + "\",\n"
    + "      \"connections\": [" + connections + "]\n    }"
  }

  /** What to_json writes about one node: its index, its name and its
      neighbours in ascending order. */
  datatype JsonEntry = JsonEntry(index: nat, name: string, connections: seq<nat>)

  /** The entry of node i. */
  function Entry(t: QTree, i: nat): (e: JsonEntry)
    requires Valid(t) && i < t.total
  {
    JsonEntry(i, Label(t, i), Neighbors(t, i))
  }

  /** The entries of the first n nodes, in index order. */
  function Entries(t: QTree, n: nat): (r: seq<JsonEntry>)
    requires Valid(t) && n <= t.total
    ensures |r| == n && forall i :: 0 <= i < n ==> r[i] == Entry(t, i)
  {
    if n == 0 then [] else Entries(t, n - 1) + [Entry(t, n - 1)]
  }

  /** The JSON object of one entry. */
  function RenderEntry(e: JsonEntry): string {
    JsonObject(e.index, e.name, JoinNums(e.connections))
  }

  /** The JSON object of every entry. */
  function RenderEntries(es: seq<JsonEntry>): (r: seq<string>)
    ensures |r| == |es| && forall k :: 0 <= k < |es| ==> r[k] == RenderEntry(es[k])
  {
    if |es| == 0 then [] else RenderEntries(es[..|es| - 1]) + [RenderEntry(es[|es| - 1])]
  }

  /** The JSON objects of the first n nodes. */
  function JsonNodes(t: QTree, n: nat): seq<string>
    requires Valid(t) && n <= t.total
  {
    RenderEntries(Entries(t, n))
  }

  const JsonHeader: string := "{\n  \"nodes\": [\n"
  const JsonFooter: string := "  ]\n}"

  /** to_json: the node objects in index order, separated by ",\n", with a
      newline after the last one (there is always at least one node). */
  method ToJson(t: QTree) returns (r: string)
    requires Valid(t)
    ensures r == JsonHeader + (Join(JsonNodes(t, t.total), ",\n") + "\n") + JsonFooter
  {
    var nodes := WriteNodes(t);
    r := JsonHeader + nodes + JsonFooter;
  }

  /** The loop of to_json over the nodes. */
  method WriteNodes(t: QTree) returns (nodes: string)
    requires Valid(t)
    ensures nodes == Join(JsonNodes(t, t.total), ",\n") + "\n"
  {
    nodes := "";
    var i: nat := 0;
    while i < t.total
      invariant i <= t.total
      invariant nodes == Written(t, i)
    {
      var node := WriteNode(t, i);
      nodes := nodes + node + Separator(t, i);
      i := i + 1;
    }
    WrittenIsJoined(t);
  }

  /** The object to_json writes for node i. */
  method WriteNode(t: QTree, i: nat) returns (node: string)
    requires Valid(t) && i < t.total
    ensures node == RenderEntry(Entry(t, i))
  {
    var connections := JsonConnections(t, i);
    node := JsonObject(i, Label(t, i), connections);
  }

  /** What follows the object of node i: a comma unless it is the last. */
  function Separator(t: QTree, i: nat): string {
    if i + 1 < t.total then ",\n" else "\n"
  }

  /** What the loop of to_json has written once the first n objects are
      out. */
  function Written(t: QTree, n: nat): string
    requires Valid(t) && n <= t.total
  {
    if n == 0 then "" else Written(t, n - 1) + RenderEntry(Entry(t, n - 1)) + Separator(t, n - 1)
  }

  /** The objects, separated by ",\n", and the separator after the last. */
  predicate JoinedUpTo(objects: seq<string>, i: nat, nodes: string)
    requires i <= |objects|
  {
    if i == 0 then nodes == ""
    else nodes == Join(objects[..i], ",\n") + (if i < |objects| then ",\n" else "\n")
  }

  lemma JoinedUpToStep(objects: seq<string>, i: nat, nodes: string)
    requires i < |objects| && JoinedUpTo(objects, i, nodes)
    ensures JoinedUpTo(objects, i + 1, nodes + objects[i] + (if i + 1 < |objects| then ",\n" else "\n"))
  {
    assert objects[..i + 1][..i] == objects[..i];
    if i == 0 {
      assert nodes + objects[i] == objects[..1][0];
    }
  }

  lemma {:induction false} WrittenJoinedUpTo(t: QTree, n: nat)
    requires Valid(t) && n <= t.total
    ensures JoinedUpTo(JsonNodes(t, t.total), n, Written(t, n))
  {
    if n > 0 {
      WrittenJoinedUpTo(t, n - 1);
      JoinedUpToStep(JsonNodes(t, t.total), n - 1, Written(t, n - 1));
    }
  }

  /** Everything the loop writes is the objects joined by ",\n" and a final
      newline. */
  lemma WrittenIsJoined(t: QTree)
    requires Valid(t)
    ensures Written(t, t.total) == Join(JsonNodes(t, t.total), ",\n") + "\n"
  {
    WrittenJoinedUpTo(t, t.total);
    assert JsonNodes(t, t.total)[..t.total] == JsonNodes(t, t.total);
  }
}
