/**
  The earlier multigraph container (src/old/graph.h), instantiated as the
  planner uses it: node values are strings and weights are integers.

  The C++ keeps every node and weight behind a shared pointer and orders
  the containers by the pointed-to values. The model keeps the values
  themselves. Each ordered `std::map`/`std::set` becomes a sequence in its
  iteration order. `NodeMap` is the node map in key order. Each entry holds
  its edge map in destination order, and each destination holds its
  ordered set of weights.
 */
module MultiGraph {

  // ---------------------------------------------------------------------
  // The orders the containers are sorted by
  // ---------------------------------------------------------------------

  /** The order of node values: `std::string`'s `operator<`, which compares
      character by character and puts a proper prefix first. The comparators
      `mixed_pointers_cmp` and `node_cmp` apply it to the values behind the
      pointers. Weights are ordered by the integer `<`. */
  predicate NodeLess(a: string, b: string)
    decreases |a|
  {
    if a == [] then b != []
    else if b == [] then false
    else if a[0] != b[0] then a[0] < b[0]
    else NodeLess(a[1..], b[1..])
  }

  lemma {:induction false} NodeLessIrreflexive(a: string)
    ensures !NodeLess(a, a)
    decreases |a|
  {
    if a != [] {
      NodeLessIrreflexive(a[1..]);
    }
  }

  lemma {:induction false} NodeLessTransitive(a: string, b: string, c: string)
    requires NodeLess(a, b) && NodeLess(b, c)
    ensures NodeLess(a, c)
    decreases |a|
  {
    if a != [] && a[0] == b[0] && b[0] == c[0] {
      NodeLessTransitive(a[1..], b[1..], c[1..]);
    }
  }

  lemma {:induction false} NodeLessTotal(a: string, b: string)
    ensures a == b || NodeLess(a, b) || NodeLess(b, a)
    decreases |a|
  {
    if a != [] && b != [] && a[0] == b[0] {
      NodeLessTotal(a[1..], b[1..]);
      if a[1..] == b[1..] {
        assert a == [a[0]] + a[1..] && b == [b[0]] + b[1..];
      }
    }
  }

  // ---------------------------------------------------------------------
  // Data model
  // ---------------------------------------------------------------------

  /** The edges from one node to destination `dst`: an ordered set of weights. */
  datatype EdgeEntry = EdgeEntry(dst: string, weights: seq<int>)

  /** One entry of the node map: the node's value and its edge map in destination order. */
  datatype NodeEntry = NodeEntry(value: string, edges: seq<EdgeEntry>)

  /** The node map, in key order. */
  type NodeMap = seq<NodeEntry>

  /** Strictly ascending under the node order, so also free of repeats. */
  predicate Ascending(s: seq<string>) {
    forall i, j | 0 <= i < j < |s| :: NodeLess(s[i], s[j])
  }

  /** Strictly ascending weights: a `std::set`, in which equal weights collapse. */
  predicate WeightsAscending(w: seq<int>) {
    forall i, j | 0 <= i < j < |w| :: w[i] < w[j]
  }

  /** `GetNodes`: the node values in key order. */
  function GetNodes(m: NodeMap): seq<string> {
    seq(|m|, i requires 0 <= i < |m| => m[i].value)
  }

  /** The destinations of an edge map, in order. */
  function Destinations(es: seq<EdgeEntry>): seq<string> {
    seq(|es|, j requires 0 <= j < |es| => es[j].dst)
  }

  /** An edge map in destination order, every weight set ordered and non-empty. */
  predicate EdgesOrdered(es: seq<EdgeEntry>) {
    && Ascending(Destinations(es))
    && forall j | 0 <= j < |es| :: es[j].weights != [] && WeightsAscending(es[j].weights)
  }

  /** The ordering invariant of the node map and of every edge map in it; it
      carries over to every prefix of the node map. */
  ghost predicate Ordered(m: NodeMap) {
    && Ascending(GetNodes(m))
    && forall i | 0 <= i < |m| :: EdgesOrdered(m[i].edges)
  }

  /** The invariant of the node map: ordered, and every edge ends at a node. */
  ghost predicate WellFormed(m: NodeMap) {
    && Ordered(m)
    && forall i, j | 0 <= i < |m| && 0 <= j < |m[i].edges| :: m[i].edges[j].dst in GetNodes(m)
  }

  lemma GetNodesPrefix(m: NodeMap, k: nat)
    requires k <= |m|
    ensures GetNodes(m[..k]) == GetNodes(m)[..k]
  {
  }

  lemma DestinationsPrefix(es: seq<EdgeEntry>, k: nat)
    requires k <= |es|
    ensures Destinations(es[..k]) == Destinations(es)[..k]
  {
  }

  /** A prefix of an ordered node map is ordered. */
  lemma OrderedPrefix(m: NodeMap, k: nat)
    requires Ordered(m) && k <= |m|
    ensures Ordered(m[..k])
  {
    GetNodesPrefix(m, k);
  }

  // ---------------------------------------------------------------------
  // Queries used by the equality
  // ---------------------------------------------------------------------

  /** `IsNode`: `n` is a key of the node map. */
  predicate IsNode(m: NodeMap, n: string) {
    n in GetNodes(m)
  }

  /** The edge map of `n`, empty when `n` is not a node. */
  function EdgesOf(m: NodeMap, n: string): seq<EdgeEntry> {
    if m == [] then []
    else if m[|m| - 1].value == n then m[|m| - 1].edges
    else EdgesOf(m[..|m| - 1], n)
  }

  /** The weight set stored for destination `dst`, empty when there is none. */
  function WeightsOf(es: seq<EdgeEntry>, dst: string): seq<int> {
    if es == [] then []
    else if es[|es| - 1].dst == dst then es[|es| - 1].weights
    else WeightsOf(es[..|es| - 1], dst)
  }

  /** `GetConnected`: the destinations of `n`'s edges, in order. */
  function GetConnected(m: NodeMap, n: string): seq<string> {
    Destinations(EdgesOf(m, n))
  }

  /** `GetWeights`: the weights of the edges `src -> dst`, in ascending order. */
  function GetWeights(m: NodeMap, src: string, dst: string): seq<int> {
    WeightsOf(EdgesOf(m, src), dst)
  }

  /** Looking up a node's value finds that node's own entry. */
  lemma {:induction false} EdgesOfAt(m: NodeMap, i: nat)
    requires Ascending(GetNodes(m)) && i < |m|
    ensures EdgesOf(m, m[i].value) == m[i].edges
  {
    var n := |m| - 1;
    if i < n {
      assert GetNodes(m)[i] == m[i].value && GetNodes(m)[n] == m[n].value;
      NodeLessIrreflexive(m[i].value);
      GetNodesPrefix(m, n);
      EdgesOfAt(m[..n], i);
    }
  }

  /** A value that is not a node has no edges. */
  lemma {:induction false} EdgesOfAbsent(m: NodeMap, n: string)
    requires n !in GetNodes(m)
    ensures EdgesOf(m, n) == []
  {
    if m != [] {
      assert GetNodes(m)[|m| - 1] == m[|m| - 1].value;
      GetNodesPrefix(m, |m| - 1);
      EdgesOfAbsent(m[..|m| - 1], n);
    }
  }

  /** Looking up a destination finds that destination's own weight set. */
  lemma {:induction false} WeightsOfAt(es: seq<EdgeEntry>, j: nat)
    requires Ascending(Destinations(es)) && j < |es|
    ensures WeightsOf(es, es[j].dst) == es[j].weights
  {
    var n := |es| - 1;
    if j < n {
      assert Destinations(es)[j] == es[j].dst && Destinations(es)[n] == es[n].dst;
      NodeLessIrreflexive(es[j].dst);
      DestinationsPrefix(es, n);
      WeightsOfAt(es[..n], j);
    }
  }

  /** A destination without an entry has no weights. */
  lemma {:induction false} WeightsOfAbsent(es: seq<EdgeEntry>, dst: string)
    requires dst !in Destinations(es)
    ensures WeightsOf(es, dst) == []
  {
    if es != [] {
      assert Destinations(es)[|es| - 1] == es[|es| - 1].dst;
      DestinationsPrefix(es, |es| - 1);
      WeightsOfAbsent(es[..|es| - 1], dst);
    }
  }

  /** Two ascending sequences with the same elements are the same sequence:
      an ordered container is determined by its contents. */
  lemma {:induction false} AscendingUnique(a: seq<string>, b: seq<string>)
    requires Ascending(a) && Ascending(b)
    requires forall x :: x in a <==> x in b
    ensures a == b
    decreases |a|
  {
    if a == [] {
      assert forall i | 0 <= i < |b| :: b[i] in b;
    } else {
      assert a[0] in b;
      if a[0] != b[0] {
        var k :| 0 <= k < |b| && b[k] == a[0];
        assert b[0] in a;
        var m :| 0 <= m < |a| && a[m] == b[0];
        NodeLessTransitive(b[0], a[0], b[0]);
        NodeLessIrreflexive(b[0]);
      }
      NodeLessIrreflexive(a[0]);
      forall x
        ensures x in a[1..] <==> x in b[1..]
      {
        if x in a[1..] {
          var k :| 1 <= k < |a| && a[k] == x;
          assert x in a && x != a[0];
        }
        if x in b[1..] {
          var k :| 1 <= k < |b| && b[k] == x;
          assert x in b && x != b[0];
        }
        if x in a && x != a[0] {
          var k :| 0 <= k < |a| && a[k] == x;
          assert a[1..][k - 1] == x;
        }
        if x in b && x != b[0] {
          var k :| 0 <= k < |b| && b[k] == x;
          assert b[1..][k - 1] == x;
        }
      }
      AscendingUnique(a[1..], b[1..]);
      assert a == [a[0]] + a[1..] && b == [b[0]] + b[1..];
    }
  }

  // ---------------------------------------------------------------------
  // Graph equality
  // ---------------------------------------------------------------------

  /** What `node_check(lhs, rhs)` decides: every node of `lhs` is a node of `rhs`. */
  predicate NodesWithin(lhs: NodeMap, rhs: NodeMap) {
    forall n | n in GetNodes(lhs) :: n in GetNodes(rhs)
  }

  /** What `edge_check(lhs, rhs)` decides: for every node of `lhs` and every
      destination it is connected to, both graphs list the same weights. */
  predicate EdgesAgree(lhs: NodeMap, rhs: NodeMap) {
    forall src, dst | src in GetNodes(lhs) && dst in GetConnected(lhs, src) ::
      GetWeights(lhs, src, dst) == GetWeights(rhs, src, dst)
  }

  /** The four checks of `operator==`. */
  predicate ChecksPass(lhs: NodeMap, rhs: NodeMap) {
    NodesWithin(lhs, rhs) && NodesWithin(rhs, lhs) && EdgesAgree(lhs, rhs) && EdgesAgree(rhs, lhs)
  }

  /** Both checks run in both directions, so the equality is symmetric on
      every pair of graphs; this follows from the definition of `ChecksPass`. */
  lemma ChecksPassSymmetric(lhs: NodeMap, rhs: NodeMap)
    ensures ChecksPass(lhs, rhs) <==> ChecksPass(rhs, lhs)
  {
  }

  /** `node_check`: walks the nodes of `lhs` in order and fails at the first
      one that is not a node of `rhs`. */
  method NodeCheck(lhs: NodeMap, rhs: NodeMap) returns (ok: bool)
    ensures ok <==> NodesWithin(lhs, rhs)
  {
    var nodes := GetNodes(lhs);
    for i := 0 to |nodes|
      invariant forall k | 0 <= k < i :: nodes[k] in GetNodes(rhs)
    {
      if !IsNode(rhs, nodes[i]) {
        return false;
      }
    }
    return true;
  }

  /** `edge_check`: walks every connected pair of `lhs` in order and fails at
      the first whose weight lists differ between the graphs. */
  method EdgeCheck(lhs: NodeMap, rhs: NodeMap) returns (ok: bool)
    ensures ok <==> EdgesAgree(lhs, rhs)
  {
    var nodes := GetNodes(lhs);
    for i := 0 to |nodes|
      invariant forall k, dst | 0 <= k < i && dst in GetConnected(lhs, nodes[k]) ::
        GetWeights(lhs, nodes[k], dst) == GetWeights(rhs, nodes[k], dst)
    {
      var src := nodes[i];
      var connected := GetConnected(lhs, src);
      for j := 0 to |connected|
        invariant forall l | 0 <= l < j :: GetWeights(lhs, src, connected[l]) == GetWeights(rhs, src, connected[l])
      {
        if GetWeights(lhs, src, connected[j]) != GetWeights(rhs, src, connected[j]) {
          return false;
        }
      }
    }
    return true;
  }

  /** The checks of `operator==` hold exactly when the two well-formed graphs
      are the same graph: same nodes, same edges, same weights. */
  lemma ChecksPassIffSame(lhs: NodeMap, rhs: NodeMap)
    requires WellFormed(lhs) && WellFormed(rhs)
    ensures ChecksPass(lhs, rhs) <==> lhs == rhs
  {
    if ChecksPass(lhs, rhs) {
      AscendingUnique(GetNodes(lhs), GetNodes(rhs));
      assert |lhs| == |GetNodes(lhs)| == |GetNodes(rhs)| == |rhs|;
      forall i | 0 <= i < |lhs|
        ensures lhs[i] == rhs[i]
      {
        assert GetNodes(lhs)[i] == GetNodes(rhs)[i];
        EntriesAgree(lhs, rhs, i);
      }
    }
  }

  /** Without non-empty weight sets the checks are weaker than equality: a
      node with an edge to itself holding no weights passes them against the
      same node with no edges. */
  lemma EmptyWeightSetPasses()
    ensures var lhs := [NodeEntry("a", [EdgeEntry("a", [])])];
            var rhs := [NodeEntry("a", [])];
            ChecksPass(lhs, rhs) && lhs != rhs && !WellFormed(lhs)
  {
    var lhs := [NodeEntry("a", [EdgeEntry("a", [])])];
    var rhs := [NodeEntry("a", [])];
    assert GetNodes(lhs) == ["a"] && GetNodes(rhs) == ["a"];
    assert GetConnected(lhs, "a") == ["a"] && GetConnected(rhs, "a") == [];
    assert GetWeights(lhs, "a", "a") == [] && GetWeights(rhs, "a", "a") == [];
  }

  /** Under the checks, the `i`th entries of two well-formed graphs with the
      same node values coincide. */
  lemma EntriesAgree(lhs: NodeMap, rhs: NodeMap, i: nat)
    requires WellFormed(lhs) && WellFormed(rhs) && ChecksPass(lhs, rhs)
    requires GetNodes(lhs) == GetNodes(rhs) && i < |lhs|
    ensures lhs[i] == rhs[i]
  {
    var src := lhs[i].value;
    assert GetNodes(lhs)[i] == src && GetNodes(rhs)[i] == rhs[i].value;
    EdgesOfAt(lhs, i);
    EdgesOfAt(rhs, i);
    var le, re := lhs[i].edges, rhs[i].edges;
    assert EdgesOrdered(le) && EdgesOrdered(re);
    forall dst
      ensures dst in Destinations(le) <==> dst in Destinations(re)
    {
      if dst in Destinations(le) {
        DestinationIn(lhs, rhs, le, re, src, dst);
      }
      if dst in Destinations(re) {
        DestinationIn(rhs, lhs, re, le, src, dst);
      }
    }
    AscendingUnique(Destinations(le), Destinations(re));
    assert |le| == |Destinations(le)| == |Destinations(re)| == |re|;
    forall j | 0 <= j < |le|
      ensures le[j] == re[j]
    {
      assert Destinations(le)[j] == le[j].dst && Destinations(re)[j] == re[j].dst;
      WeightsOfAt(le, j);
      WeightsOfAt(re, j);
      assert le[j].dst in GetConnected(lhs, src);
    }
  }

  /** A destination `src` has in `lhs` is one it has in `rhs`, when the weights agree. */
  lemma DestinationIn(lhs: NodeMap, rhs: NodeMap, le: seq<EdgeEntry>, re: seq<EdgeEntry>,
                      src: string, dst: string)
    requires EdgesAgree(lhs, rhs) && src in GetNodes(lhs)
    requires EdgesOf(lhs, src) == le && EdgesOf(rhs, src) == re
    requires EdgesOrdered(le)
    requires dst in Destinations(le)
    ensures dst in Destinations(re)
  {
    var j :| 0 <= j < |le| && Destinations(le)[j] == dst;
    WeightsOfAt(le, j);
    assert GetWeights(rhs, src, dst) == le[j].weights != [];
    if dst !in Destinations(re) {
      WeightsOfAbsent(re, dst);
    }
  }

  /** `operator==`: node containment both ways, then weight agreement both
      ways, stopping at the first check that fails. On well-formed graphs it
      is exactly equality of the graphs, so it is also symmetric. */
  method Equal(lhs: NodeMap, rhs: NodeMap) returns (eq: bool)
    ensures eq <==> ChecksPass(lhs, rhs)
    ensures WellFormed(lhs) && WellFormed(rhs) ==> (eq <==> lhs == rhs)
  {
    if WellFormed(lhs) && WellFormed(rhs) {
      ChecksPassIffSame(lhs, rhs);
    }
    var ok := NodeCheck(lhs, rhs);
    if !ok {
      return false;
    }
    ok := NodeCheck(rhs, lhs);
    if !ok {
      return false;
    }
    ok := EdgeCheck(lhs, rhs);
    if !ok {
      return false;
    }
    ok := EdgeCheck(rhs, lhs);
    if !ok {
      return false;
    }
    return true;
  }

  /** `operator!=`: the negation of `operator==`. */
  method NotEqual(lhs: NodeMap, rhs: NodeMap) returns (ne: bool)
    ensures ne <==> !ChecksPass(lhs, rhs)
    ensures WellFormed(lhs) && WellFormed(rhs) ==> (ne <==> lhs != rhs)
  {
    var eq := Equal(lhs, rhs);
    ne := !eq;
  }
}
