/**
  The current graph container of the crafting planner (src/graph.h): a
  directed graph in which every node keeps a map from destination to a
  single weight and the set of nodes that hold an edge into it.

  The node map is first described as a value (`NodeMap`) with one pure
  transition function per mutating operation, each proved to keep the
  back-reference invariant `WellFormed`; the class `Graph` then owns a
  `nodes` field and its methods replace it by those functions.
 */
module DiGraph {

  /** One entry of the node map: outgoing edges, the node's own value and its requirers. */
  datatype Node<N, E> = Node(edges: map<N, E>, value: N, incoming: set<N>)

  type NodeMap<N, E> = map<N, Node<N, E>>

  /** The node map's invariant: values match keys, edges end at nodes, and
      `incoming` mirrors the edge maps exactly. */
  ghost predicate WellFormed<N, E>(m: NodeMap<N, E>) {
    && (forall k | k in m :: m[k].value == k)
    && (forall k, d | k in m && d in m[k].edges :: d in m && k in m[d].incoming)
    && (forall y, x | y in m && x in m[y].incoming :: x in m && y in m[x].edges)
  }

  /** There is an edge `src -> dst`. */
  predicate HasEdge<N, E>(m: NodeMap<N, E>, src: N, dst: N) {
    src in m && dst in m[src].edges
  }

  /** The back-reference invariant read in both directions. */
  lemma {:induction false} IncomingMirrorsEdges<N, E>(m: NodeMap<N, E>, x: N, y: N)
    requires WellFormed(m)
    ensures HasEdge(m, x, y) <==> (y in m && x in m[y].incoming)
  {
    if HasEdge(m, x, y) {
      assert y in m && x in m[y].incoming;
    }
    if y in m && x in m[y].incoming {
      assert x in m && y in m[x].edges;
    }
  }

  // ---------------------------------------------------------------------
  // Transitions on the node map
  // ---------------------------------------------------------------------

  /** The node map after inserting `v` as a node without edges; a node that is
      already present is left as it is. */
  function AddNode<N, E>(m: NodeMap<N, E>, v: N): (r: NodeMap<N, E>)
    requires WellFormed(m)
    ensures WellFormed(r)
    ensures r.Keys == m.Keys + {v}
    ensures v in m ==> r == m
    ensures v !in m ==> r[v].edges == map[] && r[v].incoming == {}
    ensures forall k | k in m :: r[k] == m[k]
  {
    if v in m then m else m[v := Node(map[], v, {})]
  }

  /** The node map after setting the weight of `src -> dst` to `w`, creating
      the edge (and the matching back-reference) when it is missing. */
  function AddEdge<N, E>(m: NodeMap<N, E>, src: N, dst: N, w: E): (r: NodeMap<N, E>)
    requires WellFormed(m) && src in m && dst in m
    ensures WellFormed(r)
    ensures r.Keys == m.Keys
    ensures r[src].edges == m[src].edges[dst := w]
    ensures r[dst].incoming == m[dst].incoming + {src}
    ensures forall k | k in m && k != src :: r[k].edges == m[k].edges
    ensures forall k | k in m && k != dst :: r[k].incoming == m[k].incoming
  {
    var m1 := m[src := m[src].(edges := m[src].edges[dst := w])];
    m1[dst := m1[dst].(incoming := m1[dst].incoming + {src})]
  }

  /** The node map after removing the edge `src -> dst` and `src` from the
      requirers of `dst`. */
  function RemoveEdge<N, E>(m: NodeMap<N, E>, src: N, dst: N): (r: NodeMap<N, E>)
    requires WellFormed(m) && HasEdge(m, src, dst)
    ensures WellFormed(r)
    ensures r.Keys == m.Keys
    ensures !HasEdge(r, src, dst)
    ensures r[src].edges == m[src].edges - {dst}
    ensures r[dst].incoming == m[dst].incoming - {src}
    ensures forall k | k in m && k != src :: r[k].edges == m[k].edges
    ensures forall k | k in m && k != dst :: r[k].incoming == m[k].incoming
  {
    var m1 := m[src := m[src].(edges := m[src].edges - {dst})];
    m1[dst := m1[dst].(incoming := m1[dst].incoming - {src})]
  }

  /** The node map after replacing the weight of the existing edge `src -> dst`. */
  function SetEdgeWeight<N, E>(m: NodeMap<N, E>, src: N, dst: N, w: E): (r: NodeMap<N, E>)
    requires WellFormed(m) && HasEdge(m, src, dst)
    ensures WellFormed(r)
    ensures r.Keys == m.Keys
    ensures r[src].edges.Keys == m[src].edges.Keys && r[src].edges[dst] == w
    ensures forall d | d in m[src].edges && d != dst :: r[src].edges[d] == m[src].edges[d]
    ensures forall k | k in m && k != src :: r[k] == m[k]
    ensures forall k | k in m :: r[k].incoming == m[k].incoming
  {
    m[src := m[src].(edges := m[src].edges[dst := w])]
  }

  /** The node map after deleting node `n` together with every edge into or out of it. */
  function RemoveNode<N, E>(m: NodeMap<N, E>, n: N): (r: NodeMap<N, E>)
    requires WellFormed(m) && n in m
    ensures WellFormed(r)
    ensures r.Keys == m.Keys - {n}
    ensures forall k | k in r :: r[k].edges == m[k].edges - {n}
    ensures forall k | k in r :: r[k].incoming == m[k].incoming - {n}
  {
    map k | k in m.Keys - {n} :: m[k].(edges := m[k].edges - {n}, incoming := m[k].incoming - {n})
  }

  // ---------------------------------------------------------------------
  // Renaming and merging a node
  // ---------------------------------------------------------------------

  /** The name a node carries after `src` is renamed to `dst`. */
  function Ren<N(==)>(x: N, src: N, dst: N): N {
    if x == src then dst else x
  }

  /** A set of names after the renaming. */
  function RenameSet<N(==)>(s: set<N>, src: N, dst: N): (r: set<N>)
    ensures forall x | x in s :: Ren(x, src, dst) in r
    ensures forall y | y in r :: y in s || (y == dst && src in s)
    ensures src != dst ==> src !in r
  {
    if src in s then s - {src} + {dst} else s
  }

  /** An edge map after the renaming; when both `src` and `dst` are keys the
      weight towards `dst` is kept. */
  function RenameKeys<N, E>(e: map<N, E>, src: N, dst: N): (r: map<N, E>)
    requires src != dst
    ensures r.Keys == RenameSet(e.Keys, src, dst)
    ensures forall d | d in e && d != src :: r[d] == e[d]
    ensures src in e && dst !in e ==> r[dst] == e[src]
  {
    if src !in e then e
    else if dst in e then e - {src}
    else (e - {src})[dst := e[src]]
  }

  /** The node that `src` becomes: merged with `dst` when `dst` is already a node. */
  function MergedNode<N, E>(m: NodeMap<N, E>, src: N, dst: N): Node<N, E>
    requires src in m
  {
    if dst in m then Node(m[src].edges + m[dst].edges, dst, m[src].incoming + m[dst].incoming)
    else Node(m[src].edges, dst, m[src].incoming)
  }

  /** The node map after renaming node `src` to `dst`. When `dst` is already a
      node the two are merged: edges and requirers are united, and where both
      hold an edge to the same destination the weight held by `dst` is kept. */
  function Rename<N, E>(m: NodeMap<N, E>, src: N, dst: N): (r: NodeMap<N, E>)
    requires WellFormed(m) && src in m && src != dst
    ensures r.Keys == m.Keys - {src} + {dst}
  {
    var base := (m - {src})[dst := MergedNode(m, src, dst)];
    map k | k in base :: Node(RenameKeys(base[k].edges, src, dst), k, RenameSet(base[k].incoming, src, dst))
  }

  /** Whether `x -> y` is the image of an edge of `m` under the renaming. */
  predicate RenamedEdge<N, E>(m: NodeMap<N, E>, src: N, dst: N, x: N, y: N) {
    && x != src && y != src
    && (|| HasEdge(m, x, y)
        || (x == dst && HasEdge(m, src, y))
        || (y == dst && HasEdge(m, x, src))
        || (x == dst && y == dst && HasEdge(m, src, src)))
  }

  /** The edges of the renamed map are exactly the images of the old edges. */
  lemma {:induction false} RenameEdges<N, E>(m: NodeMap<N, E>, src: N, dst: N, x: N, y: N)
    requires WellFormed(m) && src in m && src != dst
    ensures HasEdge(Rename(m, src, dst), x, y) <==> RenamedEdge(m, src, dst, x, y)
  {
    var r := Rename(m, src, dst);
    var base := (m - {src})[dst := MergedNode(m, src, dst)];
    if x in r {
      assert r[x].edges.Keys == RenameSet(base[x].edges.Keys, src, dst);
      if x == dst {
        assert base[x].edges.Keys == m[src].edges.Keys + (if dst in m then m[dst].edges.Keys else {});
      } else {
        assert base[x].edges.Keys == m[x].edges.Keys;
      }
    }
  }

  /** The requirers recorded in the renamed map are exactly the images of the old requirers. */
  lemma {:induction false} RenameIncoming<N, E>(m: NodeMap<N, E>, src: N, dst: N, x: N, y: N)
    requires WellFormed(m) && src in m && src != dst
    ensures (var r := Rename(m, src, dst); y in r && x in r[y].incoming) <==> RenamedEdge(m, src, dst, x, y)
  {
    var r := Rename(m, src, dst);
    var base := (m - {src})[dst := MergedNode(m, src, dst)];
    IncomingMirrorsEdges(m, x, y);
    IncomingMirrorsEdges(m, src, y);
    IncomingMirrorsEdges(m, x, src);
    IncomingMirrorsEdges(m, src, src);
    if y in r {
      assert r[y].incoming == RenameSet(base[y].incoming, src, dst);
      if y == dst {
        assert base[y].incoming == m[src].incoming + (if dst in m then m[dst].incoming else {});
      } else {
        assert base[y].incoming == m[y].incoming;
      }
    }
  }

  /** Renaming keeps the back-reference invariant. */
  lemma {:induction false} RenameWellFormed<N, E>(m: NodeMap<N, E>, src: N, dst: N)
    requires WellFormed(m) && src in m && src != dst
    ensures WellFormed(Rename(m, src, dst))
  {
    var r := Rename(m, src, dst);
    forall k | k in r ensures r[k].value == k {
    }
    forall x, y ensures HasEdge(r, x, y) <==> RenamedEdge(m, src, dst, x, y) {
      RenameEdges(m, src, dst, x, y);
    }
    forall x, y ensures (y in r && x in r[y].incoming) <==> RenamedEdge(m, src, dst, x, y) {
      RenameIncoming(m, src, dst, x, y);
    }
    MirroredByOneRelation(r, (x, y) => RenamedEdge(m, src, dst, x, y));
  }

  /** A node map whose edges and requirers both describe the same relation is well formed. */
  lemma MirroredByOneRelation<N, E>(r: NodeMap<N, E>, rel: (N, N) -> bool)
    requires forall k | k in r :: r[k].value == k
    requires forall x, y :: HasEdge(r, x, y) <==> rel(x, y)
    requires forall x, y :: (y in r && x in r[y].incoming) <==> rel(x, y)
    ensures WellFormed(r)
  {
    forall k, d | k in r && d in r[k].edges
      ensures d in r && k in r[d].incoming
    {
      assert HasEdge(r, k, d);
    }
    forall y, x | y in r && x in r[y].incoming
      ensures x in r && y in r[x].edges
    {
      assert rel(x, y);
    }
  }

  /** An edge between two nodes other than `src` keeps its weight, whether or
      not `dst` was merged into. */
  lemma {:induction false} RenameKeepsWeight<N, E>(m: NodeMap<N, E>, src: N, dst: N, x: N, y: N)
    requires WellFormed(m) && src in m && src != dst
    requires HasEdge(m, x, y) && x != src && y != src
    ensures HasEdge(Rename(m, src, dst), x, y)
    ensures Rename(m, src, dst)[x].edges[y] == m[x].edges[y]
  {
    RenameEdges(m, src, dst, x, y);
    var base := (m - {src})[dst := MergedNode(m, src, dst)];
    assert base[x].edges[y] == m[x].edges[y];
  }

  /** An edge of `src` whose destination `dst` did not already reach moves to
      `dst` with its weight. */
  lemma {:induction false} RenameMovesWeight<N, E>(m: NodeMap<N, E>, src: N, dst: N, y: N)
    requires WellFormed(m) && src in m && src != dst
    requires HasEdge(m, src, y) && y != src && !HasEdge(m, dst, y)
    ensures HasEdge(Rename(m, src, dst), dst, y)
    ensures Rename(m, src, dst)[dst].edges[y] == m[src].edges[y]
  {
    RenameEdges(m, src, dst, dst, y);
  }

  /** An edge into `src` from another node that did not already reach `dst`
      is redirected to `dst` with its weight. */
  lemma {:induction false} RenameRedirectsWeight<N, E>(m: NodeMap<N, E>, src: N, dst: N, x: N)
    requires WellFormed(m) && src in m && src != dst
    requires HasEdge(m, x, src) && x != src && x != dst && !HasEdge(m, x, dst)
    ensures HasEdge(Rename(m, src, dst), x, dst)
    ensures Rename(m, src, dst)[x].edges[dst] == m[x].edges[src]
  {
    RenameEdges(m, src, dst, x, dst);
  }

  /** A self-loop on `src` becomes a self-loop on `dst` with its weight, unless
      a merge brings another edge onto `dst -> dst`: one of `src -> dst`,
      `dst -> src` or `dst -> dst`. */
  lemma {:induction false} RenameSelfLoopWeight<N, E>(m: NodeMap<N, E>, src: N, dst: N)
    requires WellFormed(m) && src in m && src != dst
    requires HasEdge(m, src, src) && !HasEdge(m, src, dst)
    requires !HasEdge(m, dst, src) && !HasEdge(m, dst, dst)
    ensures HasEdge(Rename(m, src, dst), dst, dst)
    ensures Rename(m, src, dst)[dst].edges[dst] == m[src].edges[src]
  {
    RenameEdges(m, src, dst, dst, dst);
    var merged := MergedNode(m, src, dst).edges;
    assert src in merged && dst !in merged && merged[src] == m[src].edges[src];
  }

  /** In a merge, the target's edge back into `src` becomes a self-loop on
      `dst` with its weight, unless `dst -> dst` or `src -> dst` already gives
      that self-loop its weight. */
  lemma {:induction false} RenameBackEdgeWeight<N, E>(m: NodeMap<N, E>, src: N, dst: N)
    requires WellFormed(m) && src in m && src != dst
    requires HasEdge(m, dst, src) && !HasEdge(m, src, dst) && !HasEdge(m, dst, dst)
    ensures HasEdge(Rename(m, src, dst), dst, dst)
    ensures Rename(m, src, dst)[dst].edges[dst] == m[dst].edges[src]
  {
    RenameEdges(m, src, dst, dst, dst);
    var merged := MergedNode(m, src, dst).edges;
    assert src in merged && dst !in merged && merged[src] == m[dst].edges[src];
  }

  // ---------------------------------------------------------------------
  // The graph object
  // ---------------------------------------------------------------------

  /** `graph::Graph<N, E>`: the node map is its only state. */
  class Graph<N(==), E> {
    var nodes: NodeMap<N, E>

    ghost predicate Valid()
      reads this
    {
      WellFormed(nodes)
    }

    /** The default constructor: an empty graph. */
    constructor ()
      ensures Valid() && nodes == map[]
    {
      nodes := map[];
    }

    /** Adds `v` as a node without edges; reports whether it was new. */
    method InsertNode(v: N) returns (inserted: bool)
      requires Valid()
      modifies this
      ensures Valid()
      ensures inserted <==> v !in old(nodes)
      ensures nodes == AddNode(old(nodes), v)
      ensures !inserted ==> nodes == old(nodes)
    {
      inserted := v !in nodes;
      nodes := AddNode(nodes, v);
    }

    /** Sets the weight of `src -> dst` to `w` when both ends are nodes, adding
        the edge if needed; otherwise changes nothing and reports false. */
    method InsertEdge(src: N, dst: N, w: E) returns (ok: bool)
      requires Valid()
      modifies this
      ensures Valid()
      ensures ok <==> src in old(nodes) && dst in old(nodes)
      ensures ok ==> nodes == AddEdge(old(nodes), src, dst, w) && nodes[src].edges[dst] == w
      ensures !ok ==> nodes == old(nodes)
    {
      ok := src in nodes && dst in nodes;
      if ok {
        nodes := AddEdge(nodes, src, dst, w);
      }
    }

    /** Deletes node `n` and every edge touching it; reports whether it existed. */
    method DeleteNode(n: N) returns (deleted: bool)
      requires Valid()
      modifies this
      ensures Valid()
      ensures deleted <==> n in old(nodes)
      ensures deleted ==> nodes == RemoveNode(old(nodes), n)
      ensures !deleted ==> nodes == old(nodes)
    {
      deleted := n in nodes;
      if deleted {
        nodes := RemoveNode(nodes, n);
      }
    }

    /** Whether `v` is a node. */
    function IsNode(v: N): (b: bool)
      reads this
      ensures b <==> v in nodes.Keys
    {
      v in nodes
    }

    /** Whether the edge `src -> dst` exists. */
    function IsConnected(src: N, dst: N): (b: bool)
      reads this
      requires Valid()
      ensures b <==> src in nodes && dst in nodes[src].edges.Keys
      ensures b <==> dst in nodes && src in nodes[dst].incoming
    {
      IncomingMirrorsEdges(nodes, src, dst);
      HasEdge(nodes, src, dst)
    }

    /** All nodes, each once. */
    method GetNodes() returns (r: seq<N>)
      ensures forall i, j | 0 <= i < j < |r| :: r[i] != r[j]
      ensures forall x :: x in r <==> x in nodes
    {
      r := Listing(nodes.Keys);
    }

    /** The destinations of `n`'s edges, each once. */
    method GetConnected(n: N) returns (r: seq<N>)
      requires n in nodes
      ensures forall i, j | 0 <= i < j < |r| :: r[i] != r[j]
      ensures forall x :: x in r <==> x in nodes[n].edges
    {
      r := Listing(nodes[n].edges.Keys);
    }

    /** The requirers of `n` (the nodes with an edge into it), each once. */
    method GetIncoming(n: N) returns (r: seq<N>)
      requires Valid() && n in nodes
      ensures forall i, j | 0 <= i < j < |r| :: r[i] != r[j]
      ensures forall x :: x in r <==> x in nodes[n].incoming
      ensures forall x :: x in r <==> IsConnected(x, n)
    {
      r := Listing(nodes[n].incoming);
      forall x ensures x in r <==> IsConnected(x, n) {
        IncomingMirrorsEdges(nodes, x, n);
      }
    }

    /** The single weight of the existing edge `src -> dst`. */
    function GetWeight(src: N, dst: N): (w: E)
      reads this
      requires IsNode(src) && dst in nodes[src].edges
      ensures w == nodes[src].edges[dst]
    {
      nodes[src].edges[dst]
    }

    /** Removes the edge `src -> dst`; reports whether there was one. */
    method Erase(src: N, dst: N) returns (removed: bool)
      requires Valid()
      modifies this
      ensures Valid()
      ensures removed <==> HasEdge(old(nodes), src, dst)
      ensures removed ==> nodes == RemoveEdge(old(nodes), src, dst)
      ensures !removed ==> nodes == old(nodes)
    {
      removed := HasEdge(nodes, src, dst);
      if removed {
        nodes := RemoveEdge(nodes, src, dst);
      }
    }

    /** Replaces the weight of `src -> dst`; reports false and changes nothing
        when there is no such edge. */
    method SetWeight(src: N, dst: N, w: E) returns (ok: bool)
      requires Valid()
      modifies this
      ensures Valid()
      ensures ok <==> HasEdge(old(nodes), src, dst)
      ensures ok ==> nodes == SetEdgeWeight(old(nodes), src, dst, w)
      ensures !ok ==> nodes == old(nodes)
    {
      ok := HasEdge(nodes, src, dst);
      if ok {
        nodes := SetEdgeWeight(nodes, src, dst, w);
      }
    }

    /** Renames `oldData` to `newData`; refuses (false, no change) when
        `oldData` is not a node or `newData` already is one. */
    method Replace(oldData: N, newData: N) returns (ok: bool)
      requires Valid()
      modifies this
      ensures Valid()
      ensures ok <==> oldData in old(nodes) && newData !in old(nodes)
      ensures ok ==> nodes == Rename(old(nodes), oldData, newData)
      ensures !ok ==> nodes == old(nodes)
    {
      ok := oldData in nodes && newData !in nodes;
      if ok {
        RenameWellFormed(nodes, oldData, newData);
        nodes := Rename(nodes, oldData, newData);
      }
    }

    /** Merges node `oldData` into the existing node `newData`. */
    method MergeReplace(oldData: N, newData: N)
      requires Valid() && oldData in nodes && newData in nodes
      modifies this
      ensures Valid()
      ensures oldData == newData ==> nodes == old(nodes)
      ensures oldData != newData ==> nodes == Rename(old(nodes), oldData, newData)
    {
      if oldData != newData {
        RenameWellFormed(nodes, oldData, newData);
        nodes := Rename(nodes, oldData, newData);
      }
    }
  }

  /** The elements of a finite set as a sequence without repetitions. */
  method Listing<T>(s: set<T>) returns (r: seq<T>)
    ensures forall i, j | 0 <= i < j < |r| :: r[i] != r[j]
    ensures forall x :: x in r <==> x in s
  {
    r := [];
    var rest := s;
    while rest != {}
      invariant rest <= s
      invariant forall x :: x in r <==> x in s - rest
      invariant forall i, j | 0 <= i < j < |r| :: r[i] != r[j]
      decreases rest
    {
      var x :| x in rest;
      assert x !in r;
      r := r + [x];
      rest := rest - {x};
    }
  }
}
