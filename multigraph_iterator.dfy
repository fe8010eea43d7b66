/**
  The bidirectional `const_iterator` of the earlier multigraph
  (src/old/graph.h). It walks the `(src, dst, weight)` triples through the
  three nested ordered containers: the node map, the source's edge map and
  the destination's weight set. Its state is three positions, one in each
  container. The source position equal to the node map's length is `end_`.

  `Triples` lists the triples in iteration order. A valid iterator stands
  at one of them or at the end, and `Position` says which. The step
  methods are proved to move `Position` by exactly one.
 */
module MultiGraphIterator {
  import opened MultiGraph

  /** What the iterator dereferences to. */
  datatype Triple = Triple(src: string, dst: string, weight: int)

  /** Lexicographic order of triples: by source, then destination, then weight. */
  predicate TripleLess(a: Triple, b: Triple) {
    || NodeLess(a.src, b.src)
    || (a.src == b.src && NodeLess(a.dst, b.dst))
    || (a.src == b.src && a.dst == b.dst && a.weight < b.weight)
  }

  predicate TriplesAscending(ts: seq<Triple>) {
    forall i, j | 0 <= i < j < |ts| :: TripleLess(ts[i], ts[j])
  }

  /** The triples of one destination's weight set. */
  ghost function WeightTriples(src: string, e: EdgeEntry): seq<Triple> {
    seq(|e.weights|, k requires 0 <= k < |e.weights| => Triple(src, e.dst, e.weights[k]))
  }

  /** The triples of `src`'s edge map, destination by destination. */
  ghost function EdgeMapTriples(src: string, es: seq<EdgeEntry>): seq<Triple> {
    if es == [] then []
    else EdgeMapTriples(src, es[..|es| - 1]) + WeightTriples(src, es[|es| - 1])
  }

  /** The triples of the whole node map, source by source: the iteration order. */
  ghost function Triples(m: NodeMap): seq<Triple> {
    if m == [] then []
    else Triples(m[..|m| - 1]) + EdgeMapTriples(m[|m| - 1].value, m[|m| - 1].edges)
  }

  // ---------------------------------------------------------------------
  // What the iteration order contains
  // ---------------------------------------------------------------------

  lemma {:induction false} EdgeMapTriplesShape(src: string, es: seq<EdgeEntry>, t: Triple)
    requires t in EdgeMapTriples(src, es)
    ensures t.src == src && t.dst in Destinations(es)
    decreases |es|
  {
    var n := |es| - 1;
    DestinationsPrefix(es, n);
    assert Destinations(es)[n] == es[n].dst;
    if t in EdgeMapTriples(src, es[..n]) {
      EdgeMapTriplesShape(src, es[..n], t);
    }
  }

  lemma {:induction false} TriplesSources(m: NodeMap, t: Triple)
    requires t in Triples(m)
    ensures t.src in GetNodes(m)
    decreases |m|
  {
    var n := |m| - 1;
    GetNodesPrefix(m, n);
    assert GetNodes(m)[n] == m[n].value;
    if t in Triples(m[..n]) {
      TriplesSources(m[..n], t);
    } else {
      EdgeMapTriplesShape(m[n].value, m[n].edges, t);
    }
  }

  lemma {:induction false} EdgeMapTriplesContent(src: string, es: seq<EdgeEntry>, t: Triple)
    requires Ascending(Destinations(es))
    ensures t in EdgeMapTriples(src, es) <==> t.src == src && t.weight in WeightsOf(es, t.dst)
    decreases |es|
  {
    if es != [] {
      var n := |es| - 1;
      DestinationsPrefix(es, n);
      EdgeMapTriplesContent(src, es[..n], t);
      if t.dst == es[n].dst && t in EdgeMapTriples(src, es[..n]) {
        EdgeMapTriplesShape(src, es[..n], t);
        var j :| 0 <= j < n && Destinations(es)[j] == t.dst;
        assert Destinations(es)[n] == es[n].dst;
        NodeLessIrreflexive(t.dst);
      }
      if t.src == src && t.dst == es[n].dst && t.weight in es[n].weights {
        var k :| 0 <= k < |es[n].weights| && es[n].weights[k] == t.weight;
        assert WeightTriples(src, es[n])[k] == t;
      }
    }
  }

  /** Iteration visits exactly the stored edges: a triple is visited iff its
      weight is among `GetWeights` of its source and destination. */
  lemma {:induction false} TriplesContent(m: NodeMap, t: Triple)
    requires Ordered(m)
    ensures t in Triples(m) <==> t.weight in GetWeights(m, t.src, t.dst)
    decreases |m|
  {
    if m != [] {
      var n := |m| - 1;
      OrderedPrefix(m, n);
      TriplesContent(m[..n], t);
      EdgeMapTriplesContent(m[n].value, m[n].edges, t);
      if t.src == m[n].value {
        GetNodesPrefix(m, n);
        if t.src in GetNodes(m[..n]) {
          var i :| 0 <= i < n && GetNodes(m)[i] == t.src;
          assert GetNodes(m)[n] == m[n].value;
          NodeLessIrreflexive(t.src);
        }
        EdgesOfAbsent(m[..n], t.src);
        if t in Triples(m[..n]) {
          TriplesSources(m[..n], t);
        }
      }
    }
  }

  lemma AscendingConcat(a: seq<Triple>, b: seq<Triple>)
    requires TriplesAscending(a) && TriplesAscending(b)
    requires forall x, y | x in a && y in b :: TripleLess(x, y)
    ensures TriplesAscending(a + b)
  {
    forall i, j | 0 <= i < j < |a + b|
      ensures TripleLess((a + b)[i], (a + b)[j])
    {
      if j < |a| {
        assert (a + b)[i] == a[i] && (a + b)[j] == a[j];
      } else if i >= |a| {
        assert (a + b)[i] == b[i - |a|] && (a + b)[j] == b[j - |a|];
      } else {
        assert (a + b)[i] in a && (a + b)[j] in b;
      }
    }
  }

  lemma {:induction false} EdgeMapTriplesAscending(src: string, es: seq<EdgeEntry>)
    requires EdgesOrdered(es)
    ensures TriplesAscending(EdgeMapTriples(src, es))
    decreases |es|
  {
    if es != [] {
      var n := |es| - 1;
      DestinationsPrefix(es, n);
      EdgeMapTriplesAscending(src, es[..n]);
      var last := WeightTriples(src, es[n]);
      assert WeightsAscending(es[n].weights);
      forall x, y | x in EdgeMapTriples(src, es[..n]) && y in last
        ensures TripleLess(x, y)
      {
        EdgeMapTriplesShape(src, es[..n], x);
        var j :| 0 <= j < n && Destinations(es)[j] == x.dst;
        assert Destinations(es)[n] == es[n].dst;
      }
      AscendingConcat(EdgeMapTriples(src, es[..n]), last);
    }
  }

  /** Iteration visits the triples in strictly ascending lexicographic order,
      so no triple twice. */
  lemma {:induction false} TriplesSorted(m: NodeMap)
    requires Ordered(m)
    ensures TriplesAscending(Triples(m))
    decreases |m|
  {
    if m != [] {
      var n := |m| - 1;
      OrderedPrefix(m, n);
      TriplesSorted(m[..n]);
      EdgeMapTriplesAscending(m[n].value, m[n].edges);
      var last := EdgeMapTriples(m[n].value, m[n].edges);
      forall x, y | x in Triples(m[..n]) && y in last
        ensures TripleLess(x, y)
      {
        TriplesSources(m[..n], x);
        EdgeMapTriplesShape(m[n].value, m[n].edges, y);
        GetNodesPrefix(m, n);
        var i :| 0 <= i < n && GetNodes(m)[i] == x.src;
        assert GetNodes(m)[n] == m[n].value;
      }
      AscendingConcat(Triples(m[..n]), last);
    }
  }

  // ---------------------------------------------------------------------
  // Positions
  // ---------------------------------------------------------------------

  lemma TriplesSnoc(m: NodeMap, k: nat)
    requires k < |m|
    ensures Triples(m[..k + 1]) == Triples(m[..k]) + EdgeMapTriples(m[k].value, m[k].edges)
  {
    assert m[..k + 1][..k] == m[..k];
  }

  lemma EdgeMapTriplesSnoc(src: string, es: seq<EdgeEntry>, d: nat)
    requires d < |es|
    ensures EdgeMapTriples(src, es[..d + 1]) == EdgeMapTriples(src, es[..d]) + WeightTriples(src, es[d])
  {
    assert es[..d + 1][..d] == es[..d];
  }

  lemma {:induction false} TriplesPrefix(m: NodeMap, k: nat)
    requires k <= |m|
    ensures Triples(m[..k]) <= Triples(m)
    decreases |m| - k
  {
    if k == |m| {
      assert m[..k] == m;
    } else {
      TriplesPrefix(m, k + 1);
      TriplesSnoc(m, k);
    }
  }

  lemma {:induction false} EdgeMapTriplesPrefix(src: string, es: seq<EdgeEntry>, d: nat)
    requires d <= |es|
    ensures EdgeMapTriples(src, es[..d]) <= EdgeMapTriples(src, es)
    decreases |es| - d
  {
    if d == |es| {
      assert es[..d] == es;
    } else {
      EdgeMapTriplesPrefix(src, es, d + 1);
      EdgeMapTriplesSnoc(src, es, d);
    }
  }

  /** Where the triples of source `s` begin; `Begin(m, |m|)` is the number of triples. */
  ghost function Begin(m: NodeMap, s: nat): nat
    requires s <= |m|
  {
    |Triples(m[..s])|
  }

  /** The position of source `s`, destination `d` and weight `e`, where `d` may
      be one past the last destination and `e` one past the last weight. */
  ghost function Offset(m: NodeMap, s: nat, d: nat, e: nat): nat
    requires s < |m| && d <= |m[s].edges|
  {
    Begin(m, s) + |EdgeMapTriples(m[s].value, m[s].edges[..d])| + e
  }

  /** An iterator state that names a stored triple. */
  predicate AtTriple(m: NodeMap, s: nat, d: nat, e: nat) {
    s < |m| && d < |m[s].edges| && e < |m[s].edges[d].weights|
  }

  lemma BeginEnd(m: NodeMap)
    ensures Begin(m, |m|) == |Triples(m)|
  {
    assert m[..|m|] == m;
  }

  lemma BeginMonotone(m: NodeMap, a: nat, b: nat)
    requires a <= b <= |m|
    ensures Begin(m, a) <= Begin(m, b)
  {
    TriplesPrefix(m[..b], a);
    assert m[..b][..a] == m[..a];
  }

  lemma EdgeMapMonotone(src: string, es: seq<EdgeEntry>, a: nat, b: nat)
    requires a <= b <= |es|
    ensures |EdgeMapTriples(src, es[..a])| <= |EdgeMapTriples(src, es[..b])|
  {
    EdgeMapTriplesPrefix(src, es[..b], a);
    assert es[..b][..a] == es[..a];
  }

  /** A stored triple's position lies within its source's block of triples. */
  lemma OffsetInBlock(m: NodeMap, s: nat, d: nat, e: nat)
    requires AtTriple(m, s, d, e)
    ensures Begin(m, s) + |EdgeMapTriples(m[s].value, m[s].edges[..d])| <= Offset(m, s, d, e)
    ensures Offset(m, s, d, e) < Begin(m, s) + |EdgeMapTriples(m[s].value, m[s].edges[..d + 1])|
    ensures Offset(m, s, d, e) < Begin(m, s + 1)
  {
    var es := m[s].edges;
    EdgeMapTriplesSnoc(m[s].value, es, d);
    EdgeMapMonotone(m[s].value, es, d + 1, |es|);
    assert es[..|es|] == es;
    TriplesSnoc(m, s);
  }

  /** The triple at a stored position is the one the three positions name. */
  lemma TripleAt(m: NodeMap, s: nat, d: nat, e: nat)
    requires AtTriple(m, s, d, e)
    ensures Offset(m, s, d, e) < |Triples(m)|
    ensures Triples(m)[Offset(m, s, d, e)] == Triple(m[s].value, m[s].edges[d].dst, m[s].edges[d].weights[e])
  {
    var es := m[s].edges;
    var src := m[s].value;
    EdgeMapTriplesSnoc(src, es, d);
    EdgeMapTriplesPrefix(src, es, d + 1);
    TriplesSnoc(m, s);
    TriplesPrefix(m, s + 1);
    var inner := |EdgeMapTriples(src, es[..d])| + e;
    assert EdgeMapTriples(src, es[..d + 1])[inner] == WeightTriples(src, es[d])[e];
    assert EdgeMapTriples(src, es)[inner] == EdgeMapTriples(src, es[..d + 1])[inner];
    assert Triples(m[..s + 1])[Begin(m, s) + inner] == EdgeMapTriples(src, es)[inner];
  }

  /** Distinct stored positions are distinct places in the iteration order. */
  lemma OffsetInjective(m: NodeMap, s1: nat, d1: nat, e1: nat, s2: nat, d2: nat, e2: nat)
    requires AtTriple(m, s1, d1, e1) && AtTriple(m, s2, d2, e2)
    requires Offset(m, s1, d1, e1) == Offset(m, s2, d2, e2)
    ensures s1 == s2 && d1 == d2 && e1 == e2
  {
    OffsetInBlock(m, s1, d1, e1);
    OffsetInBlock(m, s2, d2, e2);
    if s1 < s2 {
      BeginMonotone(m, s1 + 1, s2);
    } else if s2 < s1 {
      BeginMonotone(m, s2 + 1, s1);
    } else if d1 < d2 {
      EdgeMapMonotone(m[s1].value, m[s1].edges, d1 + 1, d2);
    } else if d2 < d1 {
      EdgeMapMonotone(m[s1].value, m[s1].edges, d2 + 1, d1);
    }
  }

  // ---------------------------------------------------------------------
  // The iterator
  // ---------------------------------------------------------------------

  class ConstIterator {
    /** The node map walked; `|graph|` stands for `end_`. */
    const graph: NodeMap
    /** `src_node_iter_`: a position in the node map. */
    var src: nat
    /** `dst_node_iter_`: a position in the source's edge map. */
    var dst: nat
    /** `edge_iter_`: a position in the destination's weight set. */
    var edge: nat

    /** At the end, or at a stored triple. At the end the other two
        positions are left as the last step made them. */
    ghost predicate Valid()
      reads this
    {
      WellFormed(graph) && src <= |graph| && (src < |graph| ==> AtTriple(graph, src, dst, edge))
    }

    /** The place in `Triples(graph)`; `|Triples(graph)|` at the end. */
    ghost function Position(): nat
      reads this
      requires Valid()
    {
      if src == |graph| then |Triples(graph)| else Offset(graph, src, dst, edge)
    }

    /** The private constructor from the end position and three positions. */
    constructor (graph: NodeMap, src: nat, dst: nat, edge: nat)
      requires WellFormed(graph) && src <= |graph|
      requires src < |graph| ==> AtTriple(graph, src, dst, edge)
      ensures Valid()
      ensures this.graph == graph && this.src == src && this.dst == dst && this.edge == edge
    {
      this.graph := graph;
      this.src := src;
      this.dst := dst;
      this.edge := edge;
    }

    /** `operator*`: the triple at the current position. */
    function Deref(): (t: Triple)
      reads this
      requires Valid() && src < |graph|
      ensures Position() < |Triples(graph)| && t == Triples(graph)[Position()]
    {
      TripleAt(graph, src, dst, edge);
      Triple(graph[src].value, graph[src].edges[dst].dst, graph[src].edges[dst].weights[edge])
    }

    /** `iterate_src`: move to the next source and to its first destination;
        report whether the end was reached. The end of one source's edges is
        the beginning of the next source's. */
    method IterateSrc() returns (end: bool)
      requires WellFormed(graph) && src < |graph|
      modifies this
      ensures src == old(src) + 1 && edge == old(edge)
      ensures end <==> src == |graph|
      ensures if end then dst == old(dst) else dst == 0
      ensures old(dst) == |graph[old(src)].edges| ==>
                (if end then |Triples(graph)| else Offset(graph, src, dst, 0)) == Offset(graph, old(src), old(dst), 0)
    {
      TriplesSnoc(graph, src);
      assert graph[src].edges[..|graph[src].edges|] == graph[src].edges;
      src := src + 1;
      if src != |graph| {
        dst := 0;
        return false;
      }
      BeginEnd(graph);
      return true;
    }

    /** `iterate_dst`: move to the next destination, skipping sources that
        have no edges, and to its first weight; report whether the end was
        reached. The loop tests for the end before it looks at the source. */
    method IterateDst() returns (end: bool)
      requires WellFormed(graph) && src < |graph| && dst < |graph[src].edges|
      modifies this
      ensures Valid()
      ensures end <==> src == |graph|
      ensures Position() == Offset(graph, old(src), old(dst) + 1, 0)
    {
      ghost var target := Offset(graph, src, dst + 1, 0);
      dst := dst + 1;
      end := false;
      while !end && dst == |graph[src].edges|
        invariant src <= |graph|
        invariant end <==> src == |graph|
        invariant !end ==> dst <= |graph[src].edges|
        invariant (if end then |Triples(graph)| else Offset(graph, src, dst, 0)) == target
        decreases |graph| - src
      {
        end := IterateSrc();
      }
      if !end {
        edge := 0;
      }
    }

    /** `operator++` (`iterate_edge`): the next triple in iteration order, or
        the end after the last one. */
    method IterateEdge()
      requires Valid() && src < |graph|
      modifies this
      ensures Valid()
      ensures Position() == old(Position()) + 1
    {
      EdgeMapTriplesSnoc(graph[src].value, graph[src].edges, dst);
      edge := edge + 1;
      if edge == |graph[src].edges[dst].weights| {
        var _ := IterateDst();
      }
    }

    /** `decrement_src`: move to the previous source, one past its last destination. */
    method DecrementSrc()
      requires WellFormed(graph) && 0 < src <= |graph|
      modifies this
      ensures src == old(src) - 1 && dst == |graph[src].edges| && edge == old(edge)
      ensures Offset(graph, src, dst, 0) == Begin(graph, old(src))
    {
      src := src - 1;
      dst := |graph[src].edges|;
      TriplesSnoc(graph, src);
      assert graph[src].edges[..dst] == graph[src].edges;
    }

    /** `decrement_dst`: move to the previous destination, skipping back over
        sources with no edges, one past its last weight. */
    method DecrementDst()
      requires WellFormed(graph) && src < |graph| && dst <= |graph[src].edges|
      requires Offset(graph, src, dst, 0) > 0
      modifies this
      ensures src < |graph| && dst < |graph[src].edges| && edge == |graph[src].edges[dst].weights|
      ensures Offset(graph, src, dst, edge) == old(Offset(graph, src, dst, 0))
    {
      assert graph[..0] == [];
      while dst == 0
        invariant src < |graph| && dst <= |graph[src].edges|
        invariant Offset(graph, src, dst, 0) == old(Offset(graph, src, dst, 0))
        decreases src
      {
        assert graph[src].edges[..0] == [];
        DecrementSrc();
      }
      dst := dst - 1;
      edge := |graph[src].edges[dst].weights|;
      EdgeMapTriplesSnoc(graph[src].value, graph[src].edges, dst);
    }

    /** `decrement_edge`: move to the previous weight, stepping back to the
        previous destination first when at the first weight. */
    method DecrementEdge()
      requires WellFormed(graph) && src < |graph| && dst < |graph[src].edges|
      requires edge <= |graph[src].edges[dst].weights|
      requires Offset(graph, src, dst, edge) > 0
      modifies this
      ensures Valid() && src < |graph|
      ensures Offset(graph, src, dst, edge) == old(Offset(graph, src, dst, edge)) - 1
    {
      if edge == 0 {
        DecrementDst();
      }
      edge := edge - 1;
    }

    /** `operator--` (`decrement`): the previous triple in iteration order;
        from the end, the last triple. */
    method Decrement()
      requires Valid() && Position() > 0
      modifies this
      ensures Valid() && src < |graph|
      ensures Position() == old(Position()) - 1
      ensures old(src) == |graph| ==> Position() == |Triples(graph)| - 1
    {
      if src == |graph| {
        BeginEnd(graph);
        DecrementSrc();
        DecrementDst();
        DecrementEdge();
      } else {
        DecrementEdge();
      }
    }
  }

  /** `operator==` on iterators: two ends are equal, an end and a non-end are
      not, otherwise the three positions are compared. */
  predicate IterEqual(lhs: ConstIterator, rhs: ConstIterator)
    reads lhs, rhs
    ensures lhs.src == |lhs.graph| && rhs.src == |rhs.graph| ==> IterEqual(lhs, rhs)
    ensures (lhs.src == |lhs.graph|) != (rhs.src == |rhs.graph|) ==> !IterEqual(lhs, rhs)
    ensures IterEqual(lhs, rhs) && lhs.src != |lhs.graph| ==>
              lhs.src == rhs.src && lhs.dst == rhs.dst && lhs.edge == rhs.edge
  {
    if lhs.src == |lhs.graph| && rhs.src == |rhs.graph| then true
    else if lhs.src == |lhs.graph| then false
    else if rhs.src == |rhs.graph| then false
    else lhs.src == rhs.src && lhs.dst == rhs.dst && lhs.edge == rhs.edge
  }

  /** `operator!=` on iterators. */
  predicate IterNotEqual(lhs: ConstIterator, rhs: ConstIterator)
    reads lhs, rhs
    ensures lhs.src == |lhs.graph| && rhs.src == |rhs.graph| ==> !IterNotEqual(lhs, rhs)
    ensures (lhs.src == |lhs.graph|) != (rhs.src == |rhs.graph|) ==> IterNotEqual(lhs, rhs)
  {
    !IterEqual(lhs, rhs)
  }

  /** Two valid iterators over the same graph are equal exactly when they
      stand at the same place in the iteration order. */
  lemma IterEqualIffSamePosition(lhs: ConstIterator, rhs: ConstIterator)
    requires lhs.Valid() && rhs.Valid() && lhs.graph == rhs.graph
    ensures IterEqual(lhs, rhs) <==> lhs.Position() == rhs.Position()
    ensures IterNotEqual(lhs, rhs) <==> lhs.Position() != rhs.Position()
  {
    var m := lhs.graph;
    if lhs.src < |m| {
      TripleAt(m, lhs.src, lhs.dst, lhs.edge);
    }
    if rhs.src < |m| {
      TripleAt(m, rhs.src, rhs.dst, rhs.edge);
    }
    if lhs.src < |m| && rhs.src < |m| && lhs.Position() == rhs.Position() {
      OffsetInjective(m, lhs.src, lhs.dst, lhs.edge, rhs.src, rhs.dst, rhs.edge);
    }
  }

  // ---------------------------------------------------------------------
  // The loop guard of `iterate_dst` as written
  // ---------------------------------------------------------------------

  /** How the `iterate_dst` loop as written ends: stopped at a source and
      destination, or by evaluating its guard with the source at `end_`. */
  datatype DstLoopOutcome = Stopped(src: nat, dst: nat) | ReadsEnd

  /** The `iterate_dst` loop with its guard in the order the source writes
      it: the current source's edge map is read first and the `end` flag
      checked second, so once `iterate_src` reports the end the next check of
      the guard reads the entry at `end_`. */
  function DstLoopAsWritten(m: NodeMap, src: nat, dst: nat, end: bool): (r: DstLoopOutcome)
    requires src <= |m|
    requires end <==> src == |m|
    ensures r.Stopped? ==> r.src < |m| && r.dst != |m[r.src].edges|
    decreases |m| - src
  {
    if src == |m| then ReadsEnd
    else if dst == |m[src].edges| && !end then
      if src + 1 < |m| then DstLoopAsWritten(m, src + 1, 0, false)
      else DstLoopAsWritten(m, src + 1, dst, true)
    else Stopped(src, dst)
  }

  /** The loop as written reads the entry at `end_` exactly when the
      increment reaches the end: the source's destinations are used up and
      every later source has no edges. */
  lemma {:induction false} DstLoopReadsEndIffLast(m: NodeMap, src: nat, dst: nat)
    requires src < |m| && dst <= |m[src].edges|
    ensures DstLoopAsWritten(m, src, dst, false) == ReadsEnd
            <==> dst == |m[src].edges| && forall k | src < k < |m| :: m[k].edges == []
    decreases |m| - src
  {
    if dst == |m[src].edges| && src + 1 < |m| {
      DstLoopReadsEndIffLast(m, src + 1, 0);
      if m[src + 1].edges == [] && forall k | src + 1 < k < |m| :: m[k].edges == [] {
        assert forall k | src < k < |m| :: m[k].edges == [];
      }
    }
  }

  /** A graph with one edge `a -> b` of weight 1: incrementing from its only
      triple makes the loop as written read the entry at `end_`. */
  lemma DstLoopReadsEndExample()
    ensures var m := [NodeEntry("a", [EdgeEntry("b", [1])]), NodeEntry("b", [])];
            WellFormed(m) && AtTriple(m, 0, 0, 0) && DstLoopAsWritten(m, 0, 1, false) == ReadsEnd
  {
    var m := [NodeEntry("a", [EdgeEntry("b", [1])]), NodeEntry("b", [])];
    assert GetNodes(m) == ["a", "b"];
    assert NodeLess("a", "b");
    assert Destinations(m[0].edges) == ["b"];
    DstLoopReadsEndIffLast(m, 0, 1);
  }
}
