# crafter, modelled in Dafny

crafter is a crafting planner. It reads a store of recipes. Each recipe
names an item, how many units one batch makes, and the counted ingredients
it consumes. The user types the items they want, and the planner expands
them into a dependency graph: item → ingredient, weighted by the count the
item's recipe asks for.

This project models three pieces of it:

- `graph.dfy`, module `DiGraph`: the current graph container `graph::Graph<N, E>`
  (`src/graph.h`).
  - Each node keeps a map from destination to one weight, plus the set of
    nodes with an edge into it.
  - The node map is a pure value, `map<N, Node>`, with the invariant
    `WellFormed`: the incoming sets mirror the edge maps exactly.
  - Every change (add or remove a node or edge, reweight, rename or merge)
    is a function proved to keep that invariant and to change nothing else.
  - The class `Graph` holds the node map in a field. Its methods state their
    new state through those functions.
- `graph_construct.dfy`, module `GraphConstruct`: the request filter of
  `main` and `build_graph` (`src/graph-construct.cpp`).
  - `build_graph` is a breadth-first expansion over a queue and a `seen`
    set. It runs on the `DiGraph.Graph` class.
  - It is proved to build exactly the names reachable from the requests
    through first-recipe ingredient lists. Every node gets exactly the
    edges of its first recipe, or none.
  - Each ingredient name is queued at most once, and the loop terminates.
- `multigraph.dfy` and `multigraph_iterator.dfy`, modules `MultiGraph` and
  `MultiGraphIterator`: the earlier multigraph in `src/old/graph.h`.
  - Its ordered maps and sets are modelled as sequences in iteration order.
  - Its `operator==` is built from `node_check` and `edge_check`. It is
    proved to be equality of the stored graphs, for graphs that store no
    destination with an empty weight set.
  - Its bidirectional `const_iterator` is a class over three positions. It
    is proved to step through the `(src, dst, weight)` triples one at a
    time, in ascending lexicographic order.

## Model

| member | source | states |
|---|---|---|
| DiGraph.IncomingMirrorsEdges | src/graph.h:29-31 | in a well-formed node map, `x` is in `y`'s incoming set exactly when `y` is in `x`'s edge map |
| DiGraph.AddNode | src/graph.h:75 | adding a node keeps the back-reference invariant; a present node leaves the map unchanged, a new one starts with no edges and no incoming; no other node changes |
| DiGraph.AddEdge | src/graph.h:76 | adding `src -> dst` sets that one weight (one weight per destination) and adds `src` to `dst`'s incoming; every other edge map and incoming set is unchanged; the invariant holds |
| DiGraph.RemoveEdge | src/graph.h:85 | removing an edge drops that destination and the matching incoming entry only; the invariant holds |
| DiGraph.SetEdgeWeight | src/graph.h:86 | only the weight of `src -> dst` changes; every other node, weight and incoming set is unchanged |
| DiGraph.RemoveNode | src/graph.h:77 | deleting a node removes its key and every edge into or out of it from the other nodes; the invariant holds |
| DiGraph.RenameSet | src/graph.h:87-88 | renaming inside a set maps `src` to `dst`, keeps every other member and leaves no `src` |
| DiGraph.RenameKeys | src/graph.h:87-88 | renaming an edge map's keys keeps every other destination's weight; a moved destination keeps its weight unless the target was already there |
| DiGraph.Rename | src/graph.h:87-88 | the renamed node map holds the old keys with `src` replaced by `dst` |
| DiGraph.RenameEdges | src/graph.h:87-88 | after a rename the edges are exactly the old ones with `src` replaced by `dst` at either end |
| DiGraph.RenameIncoming | src/graph.h:87-88 | after a rename the incoming sets list exactly those renamed edges |
| DiGraph.RenameWellFormed | src/graph.h:87-88 | renaming (and merging) keeps the back-reference invariant |
| DiGraph.MirroredByOneRelation | src/graph.h:29-31 | a node map whose edge maps and incoming sets both describe one relation is well formed |
| DiGraph.RenameKeepsWeight | src/graph.h:87-88 | an edge not touching the renamed node keeps its weight |
| DiGraph.RenameMovesWeight | src/graph.h:87-88 | an edge out of the renamed node moves to the new name with its weight, when the target had no edge to that destination |
| DiGraph.RenameRedirectsWeight | src/graph.h:87-88 | an edge into the renamed node, from a node with no edge to the new name, is redirected to the new name with its weight |
| DiGraph.RenameSelfLoopWeight | src/graph.h:87-88 | a self-loop on the renamed node becomes a self-loop on the new name with its weight, when no merged edge competes for it |
| DiGraph.RenameBackEdgeWeight | src/graph.h:88 | in a merge, the target's edge back into the merged node becomes a self-loop on the target with its weight, when neither `dst -> dst` nor `src -> dst` exists |
| DiGraph.Graph.constructor | src/graph.h:72 | the default graph is empty and valid |
| DiGraph.Graph.InsertNode | src/graph.h:75 | returns true exactly when the node was new; inserting a present node leaves the graph unchanged |
| DiGraph.Graph.InsertEdge | src/graph.h:76 | succeeds exactly when both endpoints are nodes, and then stores the weight for that destination; otherwise nothing changes |
| DiGraph.Graph.DeleteNode | src/graph.h:77 | returns true exactly when the node was present, and then removes it with all its edges |
| DiGraph.Graph.IsNode | src/graph.h:79 | true exactly for the keys of the node map |
| DiGraph.Graph.IsConnected | src/graph.h:80 | true exactly when `dst` is a key of `src`'s edge map, equivalently when `src` is in `dst`'s incoming set |
| DiGraph.Graph.GetNodes | src/graph.h:81 | lists exactly the nodes, each once |
| DiGraph.Graph.GetConnected | src/graph.h:82 | lists exactly the destinations of the node's edges, each once |
| DiGraph.Graph.GetIncoming | src/graph.h:83 | lists exactly the incoming set, each once; these are exactly the nodes connected to it |
| DiGraph.Graph.GetWeight | src/graph.h:84 | for an existing edge, yields the single weight stored for that destination |
| DiGraph.Graph.Erase | src/graph.h:85 | returns true exactly when the edge was there, and then removes only it and its incoming entry |
| DiGraph.Graph.SetWeight | src/graph.h:86 | returns true exactly when the edge exists, and then changes only its weight |
| DiGraph.Graph.Replace | src/graph.h:87 | succeeds exactly when the old name is a node and the new one is not, and then renames the node in every edge and incoming set |
| DiGraph.Graph.MergeReplace | src/graph.h:88 | merges the old node into the new one, redirecting its edges in both directions; merging a node into itself changes nothing |
| DiGraph.Listing | src/graph.h:81-83 | the vector built from a set holds each member exactly once |
| GraphConstruct.Typed | src/graph-construct.cpp:29-39 | the loop reads the lines before the first empty one (or the end of the line sequence) |
| GraphConstruct.Known | src/graph-construct.cpp:31-36 | the accepted requests are exactly the typed names the store knows |
| GraphConstruct.Unknown | src/graph-construct.cpp:31-34 | the reported names are exactly the typed names the store does not know |
| GraphConstruct.KnownUnknownPartition | src/graph-construct.cpp:31-36 | every typed line is either accepted or reported, never both and never lost |
| GraphConstruct.TypedPrefix | src/graph-construct.cpp:29-39 | a run of non-empty lines followed by an empty one is exactly what is read |
| GraphConstruct.CollectRequests | src/graph-construct.cpp:29-39 | the request loop of `main` keeps exactly the known names, in order, and reports the others |
| GraphConstruct.IngredientEdges | src/graph-construct.cpp:64-66 | the edges an ingredient list gives go to exactly the listed names |
| GraphConstruct.IngredientEdgesWeight | src/graph-construct.cpp:64-66 | an ingredient's edge carries its count unless a later line names the same ingredient |
| GraphConstruct.ExpectedEdges | src/graph-construct.cpp:61-66 | a name's expected edges go to exactly the ingredients of its first recipe, and there are none without a recipe |
| GraphConstruct.ExpectedEdgesOfRecipe | src/graph-construct.cpp:61-66 | every ingredient of the first recipe gives an edge weighted by its count |
| GraphConstruct.ReachableRequest | src/graph-construct.cpp:51-54 | every request is reachable |
| GraphConstruct.ReachableStep | src/graph-construct.cpp:64-70 | an ingredient of a reachable name's first recipe is reachable |
| GraphConstruct.PathStaysIn | src/graph-construct.cpp:56-73 | a path from a set closed under ingredient lists stays in that set |
| GraphConstruct.ClosedHoldsReachable | src/graph-construct.cpp:56-73 | any set that holds the requests and is closed under ingredient lists holds every reachable name |
| GraphConstruct.Universe | src/graph-construct.cpp:49-73 | the names the loop can see are bounded: the requests plus every listed ingredient |
| GraphConstruct.Start | src/graph-construct.cpp:49-55 | before the loop, every request is queued (repeats included) and seen, and the graph is empty |
| GraphConstruct.Ingest | src/graph-construct.cpp:65-70 | one ingredient adds its node and the weighted edge, and queues the name exactly when it was not yet seen |
| GraphConstruct.ExpandIngs | src/graph-construct.cpp:64-71 | the ingredient loop only grows `seen`, and queues nothing when it sees nothing new |
| GraphConstruct.Pop | src/graph-construct.cpp:57-72 | one turn inserts the popped name, only grows `seen`, and only drops the front when it sees nothing new |
| GraphConstruct.StartInv | src/graph-construct.cpp:49-55 | the loop invariant holds before the first turn |
| GraphConstruct.ExpandIngsSeen | src/graph-construct.cpp:67-70 | the ingredient loop sees exactly the listed ingredient names |
| GraphConstruct.ExpandIngsEdges | src/graph-construct.cpp:64-66 | the ingredient loop adds exactly the ingredient edges, later lines overwriting earlier ones |
| GraphConstruct.PopPreserves | src/graph-construct.cpp:56-73 | each turn keeps the loop invariant: every queued name and every node is seen, every seen name is reachable, each name is queued at most once, expanded nodes carry their expected edges |
| GraphConstruct.PopProgress | src/graph-construct.cpp:56-73 | each turn either sees a new name of the bounded universe or shortens the queue, so the loop terminates |
| GraphConstruct.ExpandRecipe | src/graph-construct.cpp:63-71 | the ingredient loop on the graph object performs exactly the ingredient steps of the functional model, in order |
| GraphConstruct.EnqueueRequests | src/graph-construct.cpp:51-54 | the queue starts as the requests in order and `seen` as their set |
| GraphConstruct.Unpack | src/graph-construct.cpp:57-72 | one turn on the graph object is exactly one functional turn |
| GraphConstruct.Turn | src/graph-construct.cpp:56-73 | one turn keeps the invariant and makes progress |
| GraphConstruct.BuildGraph | src/graph-construct.cpp:48-75 | the result's nodes are exactly the names reachable from the requests; every request is a node; every node has exactly the edges of its first recipe (none without one); each ingredient name is queued at most once; the queued ingredient names are exactly the non-request nodes |
| MultiGraph.NodeLessIrreflexive | src/old/graph.h:22-28 | no value sorts before itself |
| MultiGraph.NodeLessTransitive | src/old/graph.h:22-28 | the value order is transitive |
| MultiGraph.NodeLessTotal | src/old/graph.h:33-42 | any two distinct values are ordered one way or the other, so the ordered maps hold each value once |
| MultiGraph.AscendingUnique | src/old/graph.h:44-51 | an ordered container is determined by its elements: two strictly ascending sequences with the same elements are equal |
| MultiGraph.EdgesOfAt | src/old/graph.h:48-51 | looking a node up in the ordered node map finds its own entry |
| MultiGraph.EdgesOfAbsent | src/old/graph.h:48-51 | a value that is not a node has no edges |
| MultiGraph.WeightsOfAt | src/old/graph.h:44-48 | looking a destination up finds its own weight set |
| MultiGraph.WeightsOfAbsent | src/old/graph.h:44-48 | a destination that is not connected has no weights |
| MultiGraph.ChecksPassSymmetric | src/old/graph.h:236-248 | the equality is symmetric, because both checks run in both directions |
| MultiGraph.NodeCheck | src/old/graph.h:281-288 | `node_check` holds exactly when every node of `lhs` is a node of `rhs` |
| MultiGraph.EdgeCheck | src/old/graph.h:289-298 | `edge_check` holds exactly when, for every connected pair of `lhs`, both graphs list the same weights |
| MultiGraph.ChecksPassIffSame | src/old/graph.h:234-251 | on well-formed graphs (ordered, every weight set non-empty, every edge ending at a node) the four checks pass exactly when the graphs are equal |
| MultiGraph.EmptyWeightSetPasses | src/old/graph.h:289-298 | without the non-empty weight sets of the invariant, a destination holding no weights passes every check against a graph without it, so the checks alone are weaker than equality |
| MultiGraph.EntriesAgree | src/old/graph.h:289-298 | when the checks pass, the node entries at each position agree |
| MultiGraph.DestinationIn | src/old/graph.h:289-298 | a destination of `lhs` whose weights `rhs` agrees with is a destination of `rhs` too |
| MultiGraph.Equal | src/old/graph.h:234-251 | `operator==` returns exactly the conjunction of the four checks, which on well-formed graphs is equality |
| MultiGraph.NotEqual | src/old/graph.h:252-254 | `operator!=` is the negation of `operator==` |
| MultiGraphIterator.TriplesContent | src/old/graph.h:84-90 | the iteration order holds exactly the stored triples: `(s, d, w)` occurs exactly when `w` is a weight of `s -> d` |
| MultiGraphIterator.TriplesSorted | src/old/graph.h:140-168 | the triples come in strictly ascending lexicographic order |
| MultiGraphIterator.TripleAt | src/old/graph.h:84-90 | the three positions name the triple at their place in the iteration order |
| MultiGraphIterator.OffsetInjective | src/old/graph.h:119-120 | distinct positions are distinct places in the iteration order |
| MultiGraphIterator.ConstIterator.constructor | src/old/graph.h:132-137 | the iterator stores the end marker and the three positions |
| MultiGraphIterator.ConstIterator.Deref | src/old/graph.h:84-90 | dereferencing yields the triple at the iterator's place in the iteration order |
| MultiGraphIterator.ConstIterator.IterateSrc | src/old/graph.h:140-147 | moves to the next source and its first destination, and reports whether it reached the end |
| MultiGraphIterator.ConstIterator.IterateDst | src/old/graph.h:148-158 | moves to the first triple after the current destination, skipping sources without edges, and reports the end exactly when there is none |
| MultiGraphIterator.ConstIterator.IterateEdge | src/old/graph.h:159-168 | `operator++` moves to the next triple in iteration order, or to the end after the last one |
| MultiGraphIterator.ConstIterator.DecrementSrc | src/old/graph.h:178-181 | moves to the previous source, just past its last destination |
| MultiGraphIterator.ConstIterator.DecrementDst | src/old/graph.h:182-188 | moves to the previous destination, just past its last weight, skipping back over sources without edges |
| MultiGraphIterator.ConstIterator.DecrementEdge | src/old/graph.h:189-195 | moves to the previous weight, stepping back a destination when at the first |
| MultiGraphIterator.ConstIterator.Decrement | src/old/graph.h:169-177 | `operator--` moves to the previous triple; from the end it lands on the last triple |
| MultiGraphIterator.IterEqual | src/old/graph.h:111-122 | iterator `operator==`: two end iterators are equal, an end and a non-end are not, and two non-end iterators are equal only at the same three positions |
| MultiGraphIterator.IterNotEqual | src/old/graph.h:123-125 | iterator `operator!=`: false for two end iterators, true for an end and a non-end |
| MultiGraphIterator.IterEqualIffSamePosition | src/old/graph.h:111-125 | two end iterators are equal, an end never equals a non-end, two valid iterators are equal exactly at the same place, and `!=` is the negation |
| MultiGraphIterator.DstLoopAsWritten | src/old/graph.h:148-153 | the `iterate_dst` loop with its guard in the written order, reporting when it reads the entry at `end_` |
| MultiGraphIterator.DstLoopReadsEndIffLast | src/old/graph.h:151-153 | the written loop reads the entry at `end_` exactly when it leaves the last source that has edges |
| MultiGraphIterator.DstLoopReadsEndExample | src/old/graph.h:151 | a graph with the single edge `a -> b` reads `end_` on the increment from its only triple |

## Left out

- `src/graph.tpp` is not part of this model. It holds the bodies of every `graph::Graph` member, so their behaviour is chosen from the declarations at `src/graph.h:75-88`, the `Nodes` layout and the way `build_graph` uses them:
  - `InsertEdge` fails and changes nothing when an endpoint is not a node, and otherwise overwrites the weight;
  - `Replace` fails when the old name is missing or the new name already exists;
  - `MergeReplace` keeps the target's weight when both nodes have an edge to the same destination.
  - When a merge turns several edges into the self-loop `dst -> dst`, it takes the weight of the first that exists among `dst -> dst`, `src -> dst`, `dst -> src` and `src -> src`. `RenameKeepsWeight`, `RenameMovesWeight`, `RenameBackEdgeWeight` and `RenameSelfLoopWeight` state these four cases.
- DiGraph.Graph.GetWeight: requires the edge to exist. What the C++ does for a missing edge is in `graph.tpp`.
- DiGraph.Graph.GetConnected: requires the node to exist, for the same reason.
- DiGraph.Graph.GetIncoming: requires the node to exist, for the same reason.
- DiGraph.Graph.MergeReplace: requires both nodes to exist, because the `void` declaration reports no failure.
- DiGraph.Graph.GetNodes: the order of the listed vector is unspecified, as for any unordered container, so only its elements are stated. The same holds for GetConnected and GetIncoming.
- The current graph's `operator==`, `node_check`, `edge_check`, `operator<<`, `_const_iterator` and the range, initializer-list, copy and move constructors: only declared in `src/graph.h`, with their bodies in `graph.tpp`.
- `src/graph2.h`: an earlier, declaration-only copy of the same interface.
- Console I/O in `main` and `build_graph`: the prompts, the "Recipe not found" message, the "Unpacking" trace and printing the graph. Typed input is a sequence of lines, and the sequence ending stands for an empty line. This matches the source only when the input is empty or its last line ends in a newline: then the failing `getline` leaves the string empty.
- Loading the recipe store (`src/import.h`, `src/import.cpp`, yaml-cpp): only the `Recipe` and `Ingredient` shapes are kept. The store is a parameter.
- GraphConstruct.BuildGraph: requires every stored name to have at least one recipe, because `recipe_it->second[0]` indexes the first one. The reader creates an entry only together with a recipe. Only that first recipe is used, as in the source.
- `tally_count` and the `craft_count` record: commented out or empty in the source.
- The `makes` field of a recipe is carried but unused, as in `build_graph`.
- The old multigraph's mutating members, lookups and iterator factories (`InsertNode`, `InsertEdge`, `DeleteNode`, `erase`, `Replace`, `MergeReplace`, `GetWeights`, `cbegin`, `cend`, `find`, `begin`, `end`, `erase(const_iterator)`) are only declared in `src/old/graph.h`. `GetNodes`, `GetConnected` and `GetWeights` are modelled as the ordered contents, with `GetWeights` empty for a missing node or destination. That weights form a set is part of the well-formedness predicate: strictly ascending, so no repeats.
- MultiGraph.WellFormed: assumes no destination is stored with an empty weight set. Whether `erase` drops a destination when its last weight goes is in `graph.tpp`, which is not part of this model. The iterator relies on it: `iterate_dst` sets `edge_iter_` to the set's `begin()` (`src/old/graph.h:155`) and `operator*` dereferences it (`src/old/graph.h:88`). For graphs that do store such entries, `==` is equality only up to them. For example, `a` with an edge to `a` holding no weights compares equal to `a` with no edges, as `MultiGraph.EmptyWeightSetPasses` states.
- The old multigraph's `incoming` sets, `shared_ptr` ownership, the `Nodes` destructor, the postfix `++`/`--` copies and the reverse iterators: plumbing with nothing to state beyond the prefix forms.
- The `node_cmp` overload at `src/old/graph.h:39-41` takes `a.first` of a plain value, which does not compile if that overload is ever chosen. The model orders node values by their own order in both directions.
- GraphConstruct.CollectRequests: the model does not capture the source's behaviour on an unterminated last line. With input `Gadget` and no final newline, the `getline` at `src/graph-construct.cpp:27` reads `Gadget` and sets end-of-file. Every later `getline` at line 38 then fails before erasing the string, so the loop at lines 30-39 pushes `Gadget` forever. The model reads `["Gadget"]` and stops.
- MultiGraph.NodeLess: compares characters by their code point, with no byte encoding. `std::string` compares through `char_traits<char>::lt`, which compares as `unsigned char`. For UTF-8 text that byte order agrees with code-point order.
- Nodes of the old graph are strings and weights are integers, the instantiation the planner would use. The container logic is generic in the C++.

## Findings

| source | as written | input that shows it | evidently intended | confidence | as-written member | corrected member |
|---|---|---|---|---|---|---|
| src/old/graph.h:151 | the `iterate_dst` loop tests `dst_node_iter_ == src_node_iter_->second.edges.end()` before `!end`, so once `iterate_src` reaches `end_` the guard dereferences the end iterator of the node map | nodes `a` and `b` with the single edge `a -> b` of weight 1; `++` on the iterator at that triple | test `!end` first, so the loop stops at the end without reading the node at `end_` | not executed; the read past the end follows from the written evaluation order | MultiGraphIterator.DstLoopAsWritten | MultiGraphIterator.ConstIterator.IterateDst |
