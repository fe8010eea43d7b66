/**
  The graph builder of the crafting planner (src/graph-construct.cpp): the
  request filter of `main` and `build_graph`, which expands the requested
  item names breadth-first through the recipe store into a `DiGraph.Graph`
  whose edges go from an item to its ingredients, weighted by the count.
 */
module GraphConstruct {
  import opened DiGraph

  /** One ingredient line of a recipe: `count` units of item `name` (src/import.h). */
  datatype Ingredient = Ingredient(count: int, name: string)

  /** A recipe for item `name`; one batch yields `makes` units (1 unless the recipe says otherwise). */
  datatype Recipe = Recipe(name: string, makes: int, ingredients: seq<Ingredient>)

  /** Item name to the recipes read for it, in file order. */
  type RecipeStore = map<string, seq<Recipe>>

  /** Every stored name has at least one recipe: the reader creates a name's
      entry only together with its first recipe. */
  predicate HasRecipes(recipes: RecipeStore) {
    forall k | k in recipes :: |recipes[k]| > 0
  }

  // ---------------------------------------------------------------------
  // Collecting the requests
  // ---------------------------------------------------------------------

  /** The lines typed before the first empty one; the end of the sequence reads as an empty line,
      as it does in the source when the last line ends in a newline. */
  function Typed(lines: seq<string>): (t: seq<string>)
    ensures t <= lines
    ensures forall i | 0 <= i < |t| :: t[i] != ""
    ensures |t| < |lines| ==> lines[|t|] == ""
  {
    if lines == [] || lines[0] == "" then [] else [lines[0]] + Typed(lines[1..])
  }

  /** The names among `names` that have a recipe, in order. */
  function Known(names: seq<string>, recipes: RecipeStore): (r: seq<string>)
    ensures forall x :: x in r <==> x in names && x in recipes
    ensures |r| <= |names|
  {
    if names == [] then []
    else
      var last := names[|names| - 1];
      Known(names[..|names| - 1], recipes) + (if last in recipes then [last] else [])
  }

  /** The names among `names` that have no recipe, in order. */
  function Unknown(names: seq<string>, recipes: RecipeStore): (r: seq<string>)
    ensures forall x :: x in r <==> x in names && x !in recipes
  {
    if names == [] then []
    else
      var last := names[|names| - 1];
      Unknown(names[..|names| - 1], recipes) + (if last !in recipes then [last] else [])
  }

  /** Every typed line is either accepted or reported, never both and never lost. */
  lemma {:induction false} KnownUnknownPartition(names: seq<string>, recipes: RecipeStore)
    ensures multiset(Known(names, recipes)) + multiset(Unknown(names, recipes)) == multiset(names)
  {
    if names != [] {
      var init := names[..|names| - 1];
      KnownUnknownPartition(init, recipes);
      assert names == init + [names[|names| - 1]];
    }
  }

  /** A prefix without empty lines that is followed by an empty line (or the
      end) is exactly what `Typed` reads. */
  lemma {:induction false} TypedPrefix(lines: seq<string>, n: nat)
    requires n <= |lines|
    requires forall i | 0 <= i < n :: lines[i] != ""
    requires n == |lines| || lines[n] == ""
    ensures Typed(lines) == lines[..n]
  {
    if n > 0 {
      TypedPrefix(lines[1..], n - 1);
      assert lines[..n] == [lines[0]] + lines[1..][..n - 1];
    }
  }

  /** The request loop of `main`: reads lines until an empty one, keeps the
      names the store knows and reports the others. */
  method CollectRequests(lines: seq<string>, recipes: RecipeStore)
    returns (requests: seq<string>, rejected: seq<string>)
    ensures requests == Known(Typed(lines), recipes)
    ensures rejected == Unknown(Typed(lines), recipes)
    ensures forall x :: x in requests <==> x in Typed(lines) && x in recipes
  {
    requests, rejected := [], [];
    var i := 0;
    while i < |lines| && lines[i] != ""
      invariant i <= |lines|
      invariant forall j | 0 <= j < i :: lines[j] != ""
      invariant requests == Known(lines[..i], recipes)
      invariant rejected == Unknown(lines[..i], recipes)
    {
      var line := lines[i];
      if line !in recipes {
        rejected := rejected + [line];
      } else {
        requests := requests + [line];
      }
      assert lines[..i + 1][..i] == lines[..i];
      i := i + 1;
    }
    TypedPrefix(lines, i);
  }

  // ---------------------------------------------------------------------
  // What the builder should produce
  // ---------------------------------------------------------------------

  /** The edges an item gets from an ingredient list, inserted in order: a
      later line for the same ingredient overwrites an earlier one. */
  function IngredientEdges(ings: seq<Ingredient>): (e: map<string, int>)
    ensures e.Keys == set i | i in ings :: i.name
  {
    if ings == [] then map[]
    else
      var last := ings[|ings| - 1];
      IngredientEdges(ings[..|ings| - 1])[last.name := last.count]
  }

  /** The weight of an ingredient is its count, unless a later line names the same ingredient. */
  lemma {:induction false} IngredientEdgesWeight(ings: seq<Ingredient>, i: nat)
    requires i < |ings|
    requires forall j | i < j < |ings| :: ings[j].name != ings[i].name
    ensures ings[i].name in IngredientEdges(ings)
    ensures IngredientEdges(ings)[ings[i].name] == ings[i].count
  {
    if i < |ings| - 1 {
      IngredientEdgesWeight(ings[..|ings| - 1], i);
    }
  }

  /** The names listed by the first recipe of `x`; none when `x` has no recipe. */
  function Successors(recipes: RecipeStore, x: string): set<string> {
    if x in recipes && |recipes[x]| > 0 then set i | i in recipes[x][0].ingredients :: i.name
    else {}
  }

  /** The outgoing edges `x` must have: those of its first recipe, or none. */
  function ExpectedEdges(recipes: RecipeStore, x: string): (e: map<string, int>)
    ensures e.Keys == Successors(recipes, x)
  {
    if x in recipes && |recipes[x]| > 0 then IngredientEdges(recipes[x][0].ingredients) else map[]
  }

  /** Every ingredient of the first recipe gives an edge weighted by its count
      (when the list names it once); an item without a recipe gets no edges. */
  lemma ExpectedEdgesOfRecipe(recipes: RecipeStore, x: string, i: nat)
    requires HasRecipes(recipes) && x in recipes
    requires i < |recipes[x][0].ingredients|
    requires var ings := recipes[x][0].ingredients;
             forall j | i < j < |ings| :: ings[j].name != ings[i].name
    ensures var ing := recipes[x][0].ingredients[i];
            ing.name in ExpectedEdges(recipes, x) && ExpectedEdges(recipes, x)[ing.name] == ing.count
  {
    IngredientEdgesWeight(recipes[x][0].ingredients, i);
  }

  /** A chain of items, each an ingredient of the first recipe of the one before. */
  ghost predicate IsPath(recipes: RecipeStore, p: seq<string>) {
    |p| > 0 && forall i | 0 <= i < |p| - 1 :: p[i + 1] in Successors(recipes, p[i])
  }

  /** `x` is a request or is reached from one through first-recipe ingredient lists. */
  ghost predicate Reachable(recipes: RecipeStore, requests: seq<string>, x: string) {
    exists p :: IsPath(recipes, p) && p[0] in requests && p[|p| - 1] == x
  }

  lemma ReachableRequest(recipes: RecipeStore, requests: seq<string>, x: string)
    requires x in requests
    ensures Reachable(recipes, requests, x)
  {
    assert IsPath(recipes, [x]);
  }

  lemma ReachableStep(recipes: RecipeStore, requests: seq<string>, x: string, y: string)
    requires Reachable(recipes, requests, x) && y in Successors(recipes, x)
    ensures Reachable(recipes, requests, y)
  {
    var p :| IsPath(recipes, p) && p[0] in requests && p[|p| - 1] == x;
    var p' := p + [y];
    assert IsPath(recipes, p');
  }

  /** A path that starts in a set closed under `Successors` stays in it. */
  lemma {:induction false} PathStaysIn(recipes: RecipeStore, p: seq<string>, s: set<string>)
    requires IsPath(recipes, p) && p[0] in s
    requires forall x | x in s :: Successors(recipes, x) <= s
    ensures p[|p| - 1] in s
  {
    if |p| > 1 {
      PathStaysIn(recipes, p[..|p| - 1], s);
      assert p[|p| - 1] in Successors(recipes, p[|p| - 2]);
    }
  }

  /** Reachability is the least set that holds the requests and is closed under `Successors`. */
  lemma ClosedHoldsReachable(recipes: RecipeStore, requests: seq<string>, s: set<string>)
    requires forall x | x in requests :: x in s
    requires forall x | x in s :: Successors(recipes, x) <= s
    ensures forall x | Reachable(recipes, requests, x) :: x in s
  {
    forall x | Reachable(recipes, requests, x) ensures x in s {
      var p :| IsPath(recipes, p) && p[0] in requests && p[|p| - 1] == x;
      PathStaysIn(recipes, p, s);
    }
  }

  /** Every name the builder can meet: the requests and every listed ingredient. */
  function Universe(recipes: RecipeStore, requests: seq<string>): (u: set<string>)
    ensures forall x | x in requests :: x in u
    ensures forall k | k in recipes :: Successors(recipes, k) <= u
  {
    (set x | x in requests) + (set k, n | k in recipes && n in Successors(recipes, k) :: n)
  }

  /** `universe` holds every ingredient listed by a first recipe. */
  predicate Closed(recipes: RecipeStore, universe: set<string>) {
    forall k | k in recipes :: Successors(recipes, k) <= universe
  }

  // ---------------------------------------------------------------------
  // build_graph
  // ---------------------------------------------------------------------

  /** The bookkeeping of the work queue: everything queued, expanded or being
      expanded (`active`) has been seen; everything seen is one of those; and
      `seen` is the requests plus the names pushed by the expansion, each pushed once.
      (Like `GraphSoFar` and `Inv`, the conjunction is bound to one name so that
      proofs carry it as a single fact rather than conjunct by conjunct.) */
  ghost predicate Bookkeeping(requests: seq<string>, queue: seq<string>, seen: set<string>,
                              expanded: set<string>, enqueued: seq<string>,
                              universe: set<string>, active: set<string>)
  {
    var holds :=
      && seen <= universe
      && (forall x | x in queue :: x in seen)
      && expanded <= seen && active <= seen
      && (forall x | x in seen :: x in expanded || x in queue || x in active)
      && (forall x :: x in seen <==> x in requests || x in enqueued)
      && (forall i, j | 0 <= i < j < |enqueued| :: enqueued[i] != enqueued[j])
      && (forall x | x in enqueued :: x !in requests);
    holds
  }

  ghost predicate AllReachable(recipes: RecipeStore, requests: seq<string>, seen: set<string>) {
    forall x | x in seen :: Reachable(recipes, requests, x)
  }

  /** The graph built so far: its nodes have been seen, pushed names are nodes,
      expanded names carry their expected edges and their ingredients have been
      seen, and the other nodes have no edges yet (`active` is exempt). */
  ghost predicate GraphSoFar(nodes: NodeMap<string, int>, recipes: RecipeStore, seen: set<string>,
                             expanded: set<string>, enqueued: seq<string>, active: set<string>)
  {
    var holds :=
      && WellFormed(nodes)
      && (forall x | x in nodes :: x in seen)
      && (forall x | x in enqueued :: x in nodes)
      && (forall x | x in expanded && x !in active ::
            x in nodes && nodes[x].edges == ExpectedEdges(recipes, x) && Successors(recipes, x) <= seen)
      && (forall x | x in nodes && x !in expanded && x !in active :: nodes[x].edges == map[]);
    holds
  }

  /** Popping the front of the queue and inserting it as a node. */
  lemma PopStep(nodes: NodeMap<string, int>, nodes': NodeMap<string, int>, recipes: RecipeStore,
                requests: seq<string>, queue: seq<string>, seen: set<string>,
                expanded: set<string>, enqueued: seq<string>, universe: set<string>)
    requires Bookkeeping(requests, queue, seen, expanded, enqueued, universe, {})
    requires GraphSoFar(nodes, recipes, seen, expanded, enqueued, {})
    requires queue != [] && nodes' == AddNode(nodes, queue[0])
    ensures Bookkeeping(requests, queue[1..], seen, expanded, enqueued, universe, {queue[0]})
    ensures GraphSoFar(nodes', recipes, seen, expanded, enqueued, {queue[0]})
    ensures queue[0] in nodes' && queue[0] in seen
    ensures nodes'[queue[0]].edges == map[] || nodes'[queue[0]].edges == ExpectedEdges(recipes, queue[0])
  {
    var x := queue[0];
    forall y | y in seen ensures y in expanded || y in queue[1..] || y in {x} {
      if y in queue && y != x {
        var i :| 0 <= i < |queue| && queue[i] == y;
        assert queue[1..][i - 1] == y;
      }
    }
  }

  /** The queue side of one ingredient: an unseen name is seen, queued and logged once. */
  lemma QueueStep(recipes: RecipeStore, requests: seq<string>, request: string, name: string,
                  queue: seq<string>, seen: set<string>, enqueued: seq<string>,
                  queue': seq<string>, seen': set<string>, enqueued': seq<string>,
                  expanded: set<string>, universe: set<string>)
    requires Bookkeeping(requests, queue, seen, expanded, enqueued, universe, {request})
    requires AllReachable(recipes, requests, seen)
    requires Closed(recipes, universe)
    requires request in seen && request in recipes && name in Successors(recipes, request)
    requires name in seen ==> queue' == queue && seen' == seen && enqueued' == enqueued
    requires name !in seen ==> queue' == queue + [name] && seen' == seen + {name} && enqueued' == enqueued + [name]
    ensures Bookkeeping(requests, queue', seen', expanded, enqueued', universe, {request})
    ensures AllReachable(recipes, requests, seen')
    ensures name in seen' && seen <= seen'
  {
    if name !in seen {
      ReachableStep(recipes, requests, request, name);
    }
  }

  /** The graph side of one ingredient: its node and the edge `request -> name`. */
  lemma GraphStep(nodes: NodeMap<string, int>, nodes': NodeMap<string, int>, recipes: RecipeStore,
                  request: string, name: string, count: int,
                  seen: set<string>, seen': set<string>, expanded: set<string>,
                  enqueued: seq<string>, enqueued': seq<string>)
    requires GraphSoFar(nodes, recipes, seen, expanded, enqueued, {request})
    requires request in nodes && seen <= seen' && name in seen'
    requires enqueued' == enqueued || enqueued' == enqueued + [name]
    requires nodes' == AddEdge(AddNode(nodes, name), request, name, count)
    ensures GraphSoFar(nodes', recipes, seen', expanded, enqueued', {request})
    ensures request in nodes' && nodes'[request].edges == nodes[request].edges[name := count]
  {
  }

  /** Re-expanding a name whose edges are already complete changes nothing. */
  lemma EdgesComplete(before: map<string, int>, e: map<string, int>)
    requires before == map[] || before == e
    ensures before + e == e
  {
  }

  /** Inserting the edge of ingredient `j` extends the edges of the first `j` ingredients. */
  lemma EdgesStep(before: map<string, int>, ings: seq<Ingredient>, j: nat)
    requires j < |ings|
    ensures (before + IngredientEdges(ings[..j]))[ings[j].name := ings[j].count]
            == before + IngredientEdges(ings[..j + 1])
  {
    assert ings[..j + 1][..j] == ings[..j];
  }

  /** The first `j` ingredients are the first `j - 1` followed by ingredient `j - 1`. */
  lemma PrefixStep(ings: seq<Ingredient>, j: nat)
    requires 0 < j <= |ings|
    ensures ings[..j][..j - 1] == ings[..j - 1] && ings[..j][j - 1] == ings[j - 1]
  {
  }

  /** No ingredient has been inserted yet. */
  lemma EdgesStart(before: map<string, int>, ings: seq<Ingredient>)
    ensures before + IngredientEdges(ings[..0]) == before
  {
    assert ings[..0] == [];
  }

  /** Seeing a new name shrinks what is left to see. */
  lemma SeenGrows(universe: set<string>, seen0: set<string>, seen: set<string>)
    requires seen0 < seen <= universe
    ensures universe - seen < universe - seen0
  {
    var y :| y in seen && y !in seen0;
    assert y in universe - seen0 && y !in universe - seen;
  }

  /** Finishing the expansion of `request`. */
  lemma FinishStep(nodes: NodeMap<string, int>, recipes: RecipeStore, requests: seq<string>,
                   request: string, queue: seq<string>, seen: set<string>,
                   expanded: set<string>, enqueued: seq<string>, universe: set<string>)
    requires Bookkeeping(requests, queue, seen, expanded, enqueued, universe, {request})
    requires GraphSoFar(nodes, recipes, seen, expanded, enqueued, {request})
    requires request in nodes && nodes[request].edges == ExpectedEdges(recipes, request)
    requires Successors(recipes, request) <= seen
    ensures Bookkeeping(requests, queue, seen, expanded + {request}, enqueued, universe, {})
    ensures GraphSoFar(nodes, recipes, seen, expanded + {request}, enqueued, {})
  {
  }

  /** With the queue empty, the graph holds exactly the reachable names with their expected edges. */
  lemma DoneStep(nodes: NodeMap<string, int>, recipes: RecipeStore, requests: seq<string>,
                 seen: set<string>, expanded: set<string>, enqueued: seq<string>, universe: set<string>)
    requires Bookkeeping(requests, [], seen, expanded, enqueued, universe, {})
    requires AllReachable(recipes, requests, seen)
    requires GraphSoFar(nodes, recipes, seen, expanded, enqueued, {})
    ensures forall x :: x in nodes <==> Reachable(recipes, requests, x)
    ensures forall x | x in requests :: x in nodes
    ensures forall x | x in nodes :: nodes[x].edges == ExpectedEdges(recipes, x)
    ensures forall x :: x in enqueued <==> x in nodes && x !in requests
  {
    assert forall x | x in seen :: x in expanded;
    ClosedHoldsReachable(recipes, requests, seen);
  }

  // ---------------------------------------------------------------------
  // build_graph as a function of its state
  // ---------------------------------------------------------------------

  /** The state of `build_graph`: the graph so far, the work queue, the names
      seen, and (for the proofs) the log of ingredient names pushed onto the queue. */
  datatype Build = Build(nodes: NodeMap<string, int>, queue: seq<string>, seen: set<string>,
                         log: seq<string>)

  /** The state before the main loop: every request queued (duplicates
      included) and seen, and an empty graph. */
  function Start(requests: seq<string>): (st: Build)
    ensures WellFormed(st.nodes) && st.nodes == map[]
    ensures st.queue == requests && st.log == []
    ensures forall x :: x in st.seen <==> x in requests
  {
    Build(map[], requests, set x | x in requests, [])
  }

  /** One ingredient of `request`: its node, the edge `request -> name`
      weighted by the count, and a push onto the queue when the name is new. */
  function Ingest(st: Build, request: string, ing: Ingredient): (r: Build)
    requires WellFormed(st.nodes) && request in st.nodes
    ensures WellFormed(r.nodes) && request in r.nodes && ing.name in r.nodes
    ensures r.nodes[request].edges == st.nodes[request].edges[ing.name := ing.count]
    ensures r.seen == st.seen + {ing.name}
    ensures ing.name in st.seen ==> r.queue == st.queue && r.log == st.log
    ensures ing.name !in st.seen ==> r.queue == st.queue + [ing.name] && r.log == st.log + [ing.name]
  {
    var nodes := AddEdge(AddNode(st.nodes, ing.name), request, ing.name, ing.count);
    if ing.name in st.seen then Build(nodes, st.queue, st.seen, st.log)
    else Build(nodes, st.queue + [ing.name], st.seen + {ing.name}, st.log + [ing.name])
  }

  /** The ingredient loop for `request`, over the lines `ings` in order. */
  function ExpandIngs(st: Build, request: string, ings: seq<Ingredient>): (r: Build)
    requires WellFormed(st.nodes) && request in st.nodes
    ensures WellFormed(r.nodes) && request in r.nodes
    ensures st.seen <= r.seen
    ensures r.seen == st.seen ==> r.queue == st.queue
    decreases |ings|
  {
    if ings == [] then st
    else Ingest(ExpandIngs(st, request, ings[..|ings| - 1]), request, ings[|ings| - 1])
  }

  /** One turn of the main loop: pop the front name, insert it, and expand
      its first recipe when it has one. */
  function Pop(recipes: RecipeStore, st: Build): (r: Build)
    requires HasRecipes(recipes) && WellFormed(st.nodes) && st.queue != []
    ensures WellFormed(r.nodes) && st.queue[0] in r.nodes
    ensures st.seen <= r.seen
    ensures r.seen == st.seen ==> r.queue == st.queue[1..]
  {
    var request := st.queue[0];
    var popped := Build(AddNode(st.nodes, request), st.queue[1..], st.seen, st.log);
    if request in recipes then ExpandIngs(popped, request, recipes[request][0].ingredients)
    else popped
  }

  /** What the main loop keeps true between turns; `expanded` is the set of
      names whose turn is over. */
  ghost predicate Inv(recipes: RecipeStore, requests: seq<string>, universe: set<string>,
                      st: Build, expanded: set<string>)
  {
    var holds :=
      && Bookkeeping(requests, st.queue, st.seen, expanded, st.log, universe, {})
      && AllReachable(recipes, requests, st.seen)
      && GraphSoFar(st.nodes, recipes, st.seen, expanded, st.log, {});
    holds
  }

  lemma StartInv(recipes: RecipeStore, requests: seq<string>, universe: set<string>)
    requires forall x | x in requests :: x in universe
    ensures Inv(recipes, requests, universe, Start(requests), {})
  {
    forall x | x in Start(requests).seen ensures Reachable(recipes, requests, x) {
      ReachableRequest(recipes, requests, x);
    }
  }

  /** The ingredient loop over the first `j` ingredients keeps the queue
      bookkeeping, with `request` being expanded, and sees only reachable names. */
  lemma {:induction false} ExpandIngsQueue(recipes: RecipeStore, requests: seq<string>, universe: set<string>,
                                           request: string, st: Build, expanded: set<string>, j: nat)
    requires Closed(recipes, universe)
    requires request in recipes && |recipes[request]| > 0 && j <= |recipes[request][0].ingredients|
    requires WellFormed(st.nodes) && request in st.nodes && request in st.seen
    requires Bookkeeping(requests, st.queue, st.seen, expanded, st.log, universe, {request})
    requires AllReachable(recipes, requests, st.seen)
    ensures var r := ExpandIngs(st, request, recipes[request][0].ingredients[..j]);
            && Bookkeeping(requests, r.queue, r.seen, expanded, r.log, universe, {request})
            && AllReachable(recipes, requests, r.seen)
  {
    var ings := recipes[request][0].ingredients;
    if j == 0 {
      assert ings[..0] == [];
    } else {
      ExpandIngsQueue(recipes, requests, universe, request, st, expanded, j - 1);
      var r0 := ExpandIngs(st, request, ings[..j - 1]);
      PrefixStep(ings, j);
      var r := Ingest(r0, request, ings[j - 1]);
      assert ExpandIngs(st, request, ings[..j]) == r;
      assert ings[j - 1].name in Successors(recipes, request);
      QueueStep(recipes, requests, request, ings[j - 1].name, r0.queue, r0.seen, r0.log,
                r.queue, r.seen, r.log, expanded, universe);
    }
  }

  /** The ingredient loop keeps the graph invariant, with `request` being expanded. */
  lemma {:induction false} ExpandIngsGraph(recipes: RecipeStore, request: string, st: Build,
                                           expanded: set<string>, ings: seq<Ingredient>)
    requires GraphSoFar(st.nodes, recipes, st.seen, expanded, st.log, {request}) && request in st.nodes
    ensures var r := ExpandIngs(st, request, ings);
            GraphSoFar(r.nodes, recipes, r.seen, expanded, r.log, {request})
    decreases |ings|
  {
    if ings != [] {
      var n := |ings| - 1;
      ExpandIngsGraph(recipes, request, st, expanded, ings[..n]);
      var r0 := ExpandIngs(st, request, ings[..n]);
      var r := Ingest(r0, request, ings[n]);
      assert ExpandIngs(st, request, ings) == r;
      GraphStep(r0.nodes, r.nodes, recipes, request, ings[n].name, ings[n].count,
                r0.seen, r.seen, expanded, r0.log, r.log);
    }
  }

  /** The ingredient loop over one more line ingests that line last. */
  lemma ExpandIngsSnoc(st: Build, request: string, ings: seq<Ingredient>, j: nat)
    requires WellFormed(st.nodes) && request in st.nodes && j < |ings|
    ensures ExpandIngs(st, request, ings[..j + 1])
            == Ingest(ExpandIngs(st, request, ings[..j]), request, ings[j])
  {
    assert ings[..j + 1][..j] == ings[..j];
  }

  /** The ingredient loop sees exactly the names of the ingredient lines. */
  lemma {:induction false} ExpandIngsSeen(st: Build, request: string, ings: seq<Ingredient>)
    requires WellFormed(st.nodes) && request in st.nodes
    ensures ExpandIngs(st, request, ings).seen == st.seen + IngredientEdges(ings).Keys
    decreases |ings|
  {
    if ings != [] {
      var n := |ings| - 1;
      ExpandIngsSeen(st, request, ings[..n]);
      assert IngredientEdges(ings) == IngredientEdges(ings[..n])[ings[n].name := ings[n].count];
    }
  }

  /** The ingredient loop adds the edges of the ingredient lines, in order, to
      those `request` already had. */
  lemma {:induction false} ExpandIngsEdges(st: Build, request: string, ings: seq<Ingredient>)
    requires WellFormed(st.nodes) && request in st.nodes
    ensures ExpandIngs(st, request, ings).nodes[request].edges == st.nodes[request].edges + IngredientEdges(ings)
    decreases |ings|
  {
    var before := st.nodes[request].edges;
    if ings == [] {
      EdgesStart(before, ings);
    } else {
      var n := |ings| - 1;
      ExpandIngsEdges(st, request, ings[..n]);
      EdgesStep(before, ings, n);
      assert ings[..n + 1] == ings;
    }
  }

  /** The whole ingredient loop of `request`: afterwards it carries its expected
      edges and all its ingredients have been seen. */
  lemma ExpandWhole(recipes: RecipeStore, requests: seq<string>, universe: set<string>,
                    request: string, st: Build, expanded: set<string>)
    requires Closed(recipes, universe)
    requires request in recipes && |recipes[request]| > 0
    requires Bookkeeping(requests, st.queue, st.seen, expanded, st.log, universe, {request})
    requires AllReachable(recipes, requests, st.seen)
    requires GraphSoFar(st.nodes, recipes, st.seen, expanded, st.log, {request})
    requires request in st.nodes && request in st.seen
    requires st.nodes[request].edges == map[] || st.nodes[request].edges == ExpectedEdges(recipes, request)
    ensures var r := ExpandIngs(st, request, recipes[request][0].ingredients);
            && Bookkeeping(requests, r.queue, r.seen, expanded, r.log, universe, {request})
            && AllReachable(recipes, requests, r.seen)
            && GraphSoFar(r.nodes, recipes, r.seen, expanded, r.log, {request})
            && request in r.nodes && r.nodes[request].edges == ExpectedEdges(recipes, request)
            && Successors(recipes, request) <= r.seen
  {
    var ings := recipes[request][0].ingredients;
    ExpandWholeQueue(recipes, requests, universe, request, st, expanded);
    ExpandIngsGraph(recipes, request, st, expanded, ings);
    ExpandWholeEdges(recipes, request, st);
  }

  /** The queue bookkeeping and reachability survive the whole ingredient loop. */
  lemma ExpandWholeQueue(recipes: RecipeStore, requests: seq<string>, universe: set<string>,
                         request: string, st: Build, expanded: set<string>)
    requires Closed(recipes, universe)
    requires request in recipes && |recipes[request]| > 0
    requires WellFormed(st.nodes) && request in st.nodes && request in st.seen
    requires Bookkeeping(requests, st.queue, st.seen, expanded, st.log, universe, {request})
    requires AllReachable(recipes, requests, st.seen)
    ensures var r := ExpandIngs(st, request, recipes[request][0].ingredients);
            && Bookkeeping(requests, r.queue, r.seen, expanded, r.log, universe, {request})
            && AllReachable(recipes, requests, r.seen)
  {
    var ings := recipes[request][0].ingredients;
    ExpandIngsQueue(recipes, requests, universe, request, st, expanded, |ings|);
    assert ings[..|ings|] == ings;
  }

  /** After the whole ingredient loop, `request` has exactly the edges of its
      first recipe and every ingredient has been seen. */
  lemma ExpandWholeEdges(recipes: RecipeStore, request: string, st: Build)
    requires request in recipes && |recipes[request]| > 0
    requires WellFormed(st.nodes) && request in st.nodes
    requires st.nodes[request].edges == map[] || st.nodes[request].edges == ExpectedEdges(recipes, request)
    ensures var r := ExpandIngs(st, request, recipes[request][0].ingredients);
            && r.nodes[request].edges == ExpectedEdges(recipes, request)
            && Successors(recipes, request) <= r.seen
  {
    var ings := recipes[request][0].ingredients;
    ExpandIngsEdges(st, request, ings);
    EdgesComplete(st.nodes[request].edges, IngredientEdges(ings));
    ExpandIngsSeen(st, request, ings);
  }

  /** A whole turn of the main loop keeps the invariant, with the popped name now expanded. */
  lemma PopPreserves(recipes: RecipeStore, requests: seq<string>,
                     universe: set<string>, st: Build, expanded: set<string>)
    requires Closed(recipes, universe)
    requires HasRecipes(recipes) && st.queue != [] && Inv(recipes, requests, universe, st, expanded)
    ensures Inv(recipes, requests, universe, Pop(recipes, st), expanded + {st.queue[0]})
    ensures Pop(recipes, st).seen <= universe
  {
    var request := st.queue[0];
    var popped := Build(AddNode(st.nodes, request), st.queue[1..], st.seen, st.log);
    PopStep(st.nodes, popped.nodes, recipes, requests, st.queue, st.seen, expanded, st.log, universe);
    var r := Pop(recipes, st);
    if request in recipes {
      assert r == ExpandIngs(popped, request, recipes[request][0].ingredients);
      ExpandWhole(recipes, requests, universe, request, popped, expanded);
    } else {
      assert r == popped;
    }
    FinishStep(r.nodes, recipes, requests, request, r.queue, r.seen, expanded, r.log, universe);
  }

  /** A turn either sees a new name of the universe or shortens the queue. */
  lemma PopProgress(recipes: RecipeStore, universe: set<string>, st: Build)
    requires HasRecipes(recipes) && WellFormed(st.nodes) && st.queue != []
    requires st.seen <= universe && Pop(recipes, st).seen <= universe
    ensures var r := Pop(recipes, st);
            universe - r.seen < universe - st.seen || (r.seen == st.seen && |r.queue| < |st.queue|)
  {
    var r := Pop(recipes, st);
    if r.seen != st.seen {
      SeenGrows(universe, st.seen, r.seen);
    }
  }

  // ---------------------------------------------------------------------
  // build_graph
  // ---------------------------------------------------------------------

  /** The ingredient loop of `build_graph` for one popped name with a recipe:
      every ingredient of its first recipe becomes a node and the target of an
      edge weighted by its count, and unseen ingredients are seen and queued. */
  method ExpandRecipe(g: Graph<string, int>, recipes: RecipeStore, request: string,
                      queue: seq<string>, seen: set<string>, ghost log: seq<string>)
    returns (queue': seq<string>, seen': set<string>, ghost log': seq<string>)
    requires g.Valid() && request in g.nodes && request in recipes && |recipes[request]| > 0
    modifies g
    ensures g.Valid()
    ensures Build(g.nodes, queue', seen', log')
            == ExpandIngs(Build(old(g.nodes), queue, seen, log), request, recipes[request][0].ingredients)
  {
    ghost var st := Build(g.nodes, queue, seen, log);
    queue', seen', log' := queue, seen, log;
    var ings := recipes[request][0].ingredients;
    assert ings[..0] == [];
    for j := 0 to |ings|
      invariant g.Valid()
      invariant Build(g.nodes, queue', seen', log') == ExpandIngs(st, request, ings[..j])
    {
      var ing := ings[j];
      ghost var prev := Build(g.nodes, queue', seen', log');
      ExpandIngsSnoc(st, request, ings, j);
      var _ := g.InsertNode(ing.name);
      var ok := g.InsertEdge(request, ing.name, ing.count);
      assert ok && g.nodes == AddEdge(AddNode(prev.nodes, ing.name), request, ing.name, ing.count);
      if ing.name !in seen' {
        seen' := seen' + {ing.name};
        queue' := queue' + [ing.name];
        log' := log' + [ing.name];
      }
      assert Build(g.nodes, queue', seen', log') == Ingest(prev, request, ing);
    }
    assert ings[..|ings|] == ings;
  }

  /** The start of `build_graph`: every request, in order and with repeats, is
      queued and marked seen. */
  method EnqueueRequests(requests: seq<string>) returns (queue: seq<string>, seen: set<string>)
    ensures queue == requests
    ensures seen == set x | x in requests
  {
    queue, seen := [], {};
    for k := 0 to |requests|
      invariant queue == requests[..k]
      invariant seen == set x | x in requests[..k]
    {
      queue := queue + [requests[k]];
      seen := seen + {requests[k]};
    }
    assert requests[..|requests|] == requests;
  }

  /** One turn of the main loop of `build_graph`: pop the front name, insert
      it, and expand its first recipe when it has one. */
  method Unpack(g: Graph<string, int>, recipes: RecipeStore, queue: seq<string>, seen: set<string>,
                ghost log: seq<string>)
    returns (queue': seq<string>, seen': set<string>, ghost log': seq<string>)
    requires g.Valid() && HasRecipes(recipes) && queue != []
    modifies g
    ensures g.Valid()
    ensures Build(g.nodes, queue', seen', log') == Pop(recipes, Build(old(g.nodes), queue, seen, log))
  {
    var request := queue[0];
    queue', seen', log' := queue[1..], seen, log;
    var _ := g.InsertNode(request);
    if request in recipes {
      queue', seen', log' := ExpandRecipe(g, recipes, request, queue', seen', log');
    }
  }

  /** One turn of the main loop together with the facts that keep the loop's
      invariant and make it progress: either a new name is seen, or the queue
      shrinks. */
  method Turn(g: Graph<string, int>, recipes: RecipeStore, ghost requests: seq<string>,
              queue: seq<string>, seen: set<string>, ghost log: seq<string>,
              ghost universe: set<string>, ghost expanded: set<string>)
    returns (queue': seq<string>, seen': set<string>, ghost log': seq<string>, ghost expanded': set<string>)
    requires g.Valid() && HasRecipes(recipes) && queue != [] && seen <= universe
    requires Closed(recipes, universe)
    requires Inv(recipes, requests, universe, Build(g.nodes, queue, seen, log), expanded)
    modifies g
    ensures g.Valid() && seen' <= universe
    ensures Inv(recipes, requests, universe, Build(g.nodes, queue', seen', log'), expanded')
    ensures universe - seen' < universe - seen || (seen' == seen && |queue'| < |queue|)
  {
    ghost var st := Build(g.nodes, queue, seen, log);
    queue', seen', log' := Unpack(g, recipes, queue, seen, log);
    PopPreserves(recipes, requests, universe, st, expanded);
    PopProgress(recipes, universe, st);
    expanded' := expanded + {st.queue[0]};
  }

  /** `build_graph`: a breadth-first expansion from the requests. Each popped
      name becomes a node; when it has a recipe, every ingredient of its first
      recipe becomes a node and the target of an edge weighted by its count,
      and unseen ingredients are queued. `enqueued` records, in order, the
      ingredient names pushed onto the queue. */
  method BuildGraph(requests: seq<string>, recipes: RecipeStore)
    returns (g: Graph<string, int>, ghost enqueued: seq<string>)
    requires HasRecipes(recipes)
    ensures fresh(g) && g.Valid()
    ensures forall x :: x in g.nodes <==> Reachable(recipes, requests, x)
    ensures forall x | x in requests :: x in g.nodes
    ensures forall x | x in g.nodes :: g.nodes[x].edges == ExpectedEdges(recipes, x)
    ensures forall i, j | 0 <= i < j < |enqueued| :: enqueued[i] != enqueued[j]
    ensures forall x :: x in enqueued <==> x in g.nodes && x !in requests
  {
    var queue, seen := EnqueueRequests(requests);
    g := new Graph();
    enqueued := [];
    ghost var universe := Universe(recipes, requests);
    ghost var expanded: set<string> := {};
    StartInv(recipes, requests, universe);
    assert Closed(recipes, universe);
    assert Build(g.nodes, queue, seen, enqueued) == Start(requests);
    while queue != []
      invariant g.Valid() && seen <= universe
      invariant Inv(recipes, requests, universe, Build(g.nodes, queue, seen, enqueued), expanded)
      decreases universe - seen, |queue|
    {
      queue, seen, enqueued, expanded := Turn(g, recipes, requests, queue, seen, enqueued, universe, expanded);
    }
    DoneStep(g.nodes, recipes, requests, seen, expanded, enqueued, universe);
  }
}
