/**
  Connected components of an undirected graph by depth-first search, and the decomposition of a
  source into sub-sources that share no data.
*/
module Components {
  import opened Options

  type Graph<!N> = map<N, set<N>>

  /** Neighbours are nodes, and neighbourhood goes both ways. */
  ghost predicate Undirected<N(!new)>(g: Graph<N>) {
    && (forall u, v :: u in g && v in g[u] ==> v in g && u in g[v])
  }

  // ---------------------------------------------------------------------------------------
  // Connectedness

  /** From `u` along the nodes of `path` to `v`. */
  ghost predicate Leads<N(!new)>(g: Graph<N>, u: N, path: seq<N>, v: N)
    decreases path
  {
    u in g && if path == [] then u == v else path[0] in g[u] && Leads(g, path[0], path[1..], v)
  }

  ghost predicate Connected<N(!new)>(g: Graph<N>, u: N, v: N) {
    exists path :: Leads(g, u, path, v)
  }

  lemma ConnectedSelf<N(!new)>(g: Graph<N>, u: N)
    requires u in g
    ensures Connected(g, u, u)
  {
    assert Leads(g, u, [], u);
  }

  lemma ConnectedNeighbour<N(!new)>(g: Graph<N>, u: N, v: N)
    requires Undirected(g) && u in g && v in g[u]
    ensures Connected(g, u, v)
  {
    assert Leads(g, v, [], v) && [v][1..] == [];
    assert Leads(g, u, [v], v);
  }

  lemma {:induction false} LeadsOnward<N(!new)>(g: Graph<N>, u: N, p: seq<N>, v: N, q: seq<N>, w: N)
    requires Leads(g, u, p, v) && Leads(g, v, q, w)
    ensures Leads(g, u, p + q, w)
    decreases p
  {
    if p == [] {
      assert p + q == q;
    } else {
      LeadsOnward(g, p[0], p[1..], v, q, w);
      assert (p + q)[1..] == p[1..] + q;
    }
  }

  lemma ConnectedOnward<N(!new)>(g: Graph<N>, u: N, v: N, w: N)
    requires Connected(g, u, v) && Connected(g, v, w)
    ensures Connected(g, u, w)
  {
    var p :| Leads(g, u, p, v);
    var q :| Leads(g, v, q, w);
    LeadsOnward(g, u, p, v, q, w);
  }

  lemma {:induction false} LeadsBack<N(!new)>(g: Graph<N>, u: N, p: seq<N>, v: N)
    requires Undirected(g) && Leads(g, u, p, v)
    ensures Connected(g, v, u)
    decreases p
  {
    if p == [] {
      ConnectedSelf(g, u);
    } else {
      LeadsBack(g, p[0], p[1..], v);
      ConnectedNeighbour(g, p[0], u);
      ConnectedOnward(g, v, p[0], u);
    }
  }

  lemma ConnectedBack<N(!new)>(g: Graph<N>, u: N, v: N)
    requires Undirected(g) && Connected(g, u, v)
    ensures Connected(g, v, u)
  {
    var p :| Leads(g, u, p, v);
    LeadsBack(g, u, p, v);
  }

  /** A set that neighbours do not leave contains all that is connected to it. */
  lemma {:induction false} ClosedUnderPaths<N(!new)>(g: Graph<N>, s: set<N>, u: N, path: seq<N>, v: N)
    requires Leads(g, u, path, v) && u in s
    requires forall x, y :: x in s && x in g && y in g[x] ==> y in s
    ensures v in s
    decreases path
  {
    if path != [] {
      ClosedUnderPaths(g, s, path[0], path[1..], v);
    }
  }

  // ---------------------------------------------------------------------------------------
  // From edges to neighbours

  ghost predicate Adjacent<N(!new)>(edges: seq<(N, N)>, directed: bool, u: N, v: N) {
    u != v && ((u, v) in edges || (!directed && (v, u) in edges))
  }

  predicate IsNode<N(==)>(edges: seq<(N, N)>, u: N) {
    exists i :: 0 <= i < |edges| && (edges[i].0 == u || edges[i].1 == u)
  }

  ghost predicate Represents<N(!new)>(g: Graph<N>, edges: seq<(N, N)>, directed: bool) {
    && (forall u :: u in g <==> IsNode(edges, u))
    && (forall u, v :: u in g ==> (v in g[u] <==> Adjacent(edges, directed, u, v)))
  }

  ghost function Nodes<N(!new)>(edges: seq<(N, N)>): set<N> {
    (set e | e in edges :: e.0) + (set e | e in edges :: e.1)
  }

  /** The graph of the edges. */
  ghost function GraphOf<N(!new)>(edges: seq<(N, N)>, directed: bool): Graph<N> {
    map u | u in Nodes(edges) :: set v | v in Nodes(edges) && Adjacent(edges, directed, u, v)
  }

  lemma InNodes<N(!new)>(edges: seq<(N, N)>, u: N)
    ensures u in Nodes(edges) <==> IsNode(edges, u)
  {
    if IsNode(edges, u) {
      var i :| 0 <= i < |edges| && (edges[i].0 == u || edges[i].1 == u);
      assert edges[i] in edges;
    }
  }

  lemma RepresentsIs<N(!new)>(g: Graph<N>, edges: seq<(N, N)>, directed: bool)
    requires Represents(g, edges, directed)
    ensures g == GraphOf(edges, directed)
  {
    forall u ensures u in g <==> u in Nodes(edges) {
      InNodes(edges, u);
    }
    forall u | u in g ensures g[u] == GraphOf(edges, directed)[u] {
      forall v ensures v in g[u] <==> v in Nodes(edges) && Adjacent(edges, directed, u, v) {
        if Adjacent(edges, directed, u, v) {
          AdjacentIsNode(edges, directed, u, v);
        }
      }
    }
  }

  lemma AdjacentIsNode<N(!new)>(edges: seq<(N, N)>, directed: bool, u: N, v: N)
    requires Adjacent(edges, directed, u, v)
    ensures v in Nodes(edges)
  {
    assert (u, v) in edges || (v, u) in edges;
  }

  method EdgesToNodes<N(==, !new)>(edges: seq<(N, N)>, directed: bool) returns (g: Graph<N>)
    ensures Represents(g, edges, directed) && g == GraphOf(edges, directed)
    ensures !directed ==> Undirected(g)
  {
    g := map[];
    for i := 0 to |edges|
      invariant Represents(g, edges[..i], directed)
    {
      var (u, v) := edges[i];
      ghost var before := g;
      if u !in g {
        g := g[u := {}];
      }
      if v !in g {
        g := g[v := {}];
      }
      if v != u {
        g := g[u := g[u] + {v}];
        if !directed {
          g := g[v := g[v] + {u}];
        }
      }
      EdgeRepresented(before, edges, i, directed, g);
    }
    assert edges[..|edges|] == edges;
    RepresentsIs(g, edges, directed);
    if !directed {
      forall u, v | u in g && v in g[u] ensures v in g && u in g[v] {
        assert Adjacent(edges, directed, u, v) && Adjacent(edges, directed, v, u);
        assert IsNode(edges, v);
      }
    }
  }

  lemma EdgeRepresented<N(!new)>(before: Graph<N>, edges: seq<(N, N)>, i: nat, directed: bool,
                                 g: Graph<N>)
    requires i < |edges| && Represents(before, edges[..i], directed)
    requires
      var (u, v) := edges[i];
      && g.Keys == before.Keys + {u, v}
      && forall x :: x in g ==> g[x] == (if x in before then before[x] else {})
                                        + (if x == u && v != u then {v} else {})
                                          + (if x == v && v != u && !directed then {u} else {})
    ensures Represents(g, edges[..i + 1], directed)
  {
    var (u, v) := edges[i];
    var now, was := edges[..i + 1], edges[..i];
    assert now == was + [(u, v)];
    forall x ensures x in g <==> IsNode(now, x) {
      if IsNode(was, x) {
        var k :| 0 <= k < |was| && (was[k].0 == x || was[k].1 == x);
        assert now[k] == was[k];
      }
      assert now[i] == (u, v);
    }
    forall x, y | x in g ensures y in g[x] <==> Adjacent(now, directed, x, y) {
      if x !in before {
        NoNeighbours(was, directed, x, y);
      }
    }
  }

  lemma NoNeighbours<N(!new)>(edges: seq<(N, N)>, directed: bool, u: N, v: N)
    requires !IsNode(edges, u)
    ensures !Adjacent(edges, directed, u, v)
  {
  }

  // ---------------------------------------------------------------------------------------
  // Depth-first search

  /** What was newly visited, save `open`, has all its neighbours visited. */
  ghost predicate Explored<N(!new)>(g: Graph<N>, visited: set<N>, before: set<N>, open: set<N>) {
    forall u, v :: u in visited - before - open && u in g && v in g[u] ==> v in visited
  }

  ghost predicate AllConnected<N(!new)>(g: Graph<N>, node: N, s: set<N>) {
    forall u :: u in s ==> Connected(g, node, u)
  }

  method Dfs<N(==, !new)>(g: Graph<N>, node: N, visited: set<N>, component: set<N>)
    returns (visited': set<N>, component': set<N>)
    requires Undirected(g) && node in g && visited <= g.Keys
    ensures visited <= visited' <= g.Keys && node in visited'
    ensures component' == component + (visited' - visited)
    ensures Explored(g, visited', visited, {})
    ensures AllConnected(g, node, visited' - visited)
    decreases |g.Keys - visited|
  {
    hide Undirected, Connected;
    visited', component' := visited, component;
    if node !in visited {
      visited', component' := visited' + {node}, component' + {node};
      ConnectedSelf(g, node);
      assert g.Keys - visited' < g.Keys - visited;
      Shrinks(g.Keys - visited', g.Keys - visited);
      var left := g[node];
      while left != {}
        invariant visited + {node} <= visited' <= g.Keys && left <= g[node]
        invariant component' == component + (visited' - visited)
        invariant Explored(g, visited', visited, {node}) && forall v :: v in g[node] - left ==> v in visited'
        invariant AllConnected(g, node, visited' - visited)
        invariant |g.Keys - visited'| < |g.Keys - visited|
        decreases |left|
      {
        var neighbour :| neighbour in left;
        ghost var before := visited';
        NeighbourIsNode(g, node, neighbour);
        visited', component' := Dfs(g, neighbour, visited', component');
        forall u | u in visited' - visited ensures Connected(g, node, u) {
          if u !in before {
            ConnectedOnward(g, node, neighbour, u);
          }
        }
        Shrinks(g.Keys - visited', g.Keys - before);
        left := left - {neighbour};
      }
    }
  }

  lemma NeighbourIsNode<N(!new)>(g: Graph<N>, u: N, v: N)
    requires Undirected(g) && u in g && v in g[u]
    ensures v in g && Connected(g, u, v)
  {
    ConnectedNeighbour(g, u, v);
  }

  lemma Shrinks<N>(a: set<N>, b: set<N>)
    requires a <= b
    ensures |a| <= |b| && (a < b ==> |a| < |b|)
  {
    assert b == a + (b - a) && |b| == |a| + |b - a|;
    if a < b {
      var x :| x in b - a;
    }
  }

  /** The nodes connected to `node`, exactly. */
  ghost predicate IsComponent<N(!new)>(g: Graph<N>, c: set<N>) {
    exists node :: node in c && node in g && forall v :: v in c <==> Connected(g, node, v)
  }

  /** Neighbours of visited nodes are visited. */
  ghost predicate Whole<N(!new)>(g: Graph<N>, visited: set<N>) {
    forall u, v :: u in visited && u in g && v in g[u] ==> v in visited
  }

  lemma FoundComponent<N(!new)>(g: Graph<N>, node: N, visited: set<N>, visited': set<N>)
    requires Undirected(g) && node in g && node in visited' - visited && visited <= visited' && Whole(g, visited)
    requires Explored(g, visited', visited, {}) && AllConnected(g, node, visited' - visited)
    ensures IsComponent(g, visited' - visited) && Whole(g, visited')
  {
    var c := visited' - visited;
    forall u, v | u in c && u in g && v in g[u] ensures v in c {
      assert v in visited' && u in g[v];
    }
    forall v ensures v in c <==> Connected(g, node, v) {
      if Connected(g, node, v) {
        var path :| Leads(g, node, path, v);
        ClosedUnderPaths(g, c, node, path, v);
      }
    }
  }

  function Union<N(==)>(cs: seq<set<N>>): set<N> {
    if cs == [] then {} else Union(cs[..|cs| - 1]) + cs[|cs| - 1]
  }

  ghost predicate AreComponents<N(!new)>(g: Graph<N>, cs: seq<set<N>>) {
    && (forall i :: 0 <= i < |cs| ==> IsComponent(g, cs[i]))
    && (forall i, j :: 0 <= i < j < |cs| ==> cs[i] !! cs[j])
  }

  /** All connected components of the graph, each once. */
  method FindComponents<N(==, !new)>(g: Graph<N>) returns (components: seq<set<N>>)
    requires Undirected(g)
    ensures AreComponents(g, components) && Union(components) == g.Keys
  {
    hide Undirected, Connected, IsComponent, Whole;
    var visited: set<N> := {};
    components := [];
    var left := g.Keys;
    NothingVisited(g);
    while left != {}
      invariant left <= g.Keys && g.Keys - left <= visited <= g.Keys && Whole(g, visited)
      invariant AreComponents(g, components) && Union(components) == visited
      invariant forall i :: 0 <= i < |components| ==> components[i] <= visited
      decreases |left|
    {
      var node :| node in left;
      if node !in visited {
        ghost var before := visited;
        var component: set<N>;
        visited, component := Dfs(g, node, visited, {});
        FoundComponent(g, node, before, visited);
        assert component == visited - before;
        assert (components + [component])[..|components|] == components;
        components := components + [component];
      }
      left := left - {node};
    }
  }

  lemma NothingVisited<N(!new)>(g: Graph<N>)
    ensures Whole(g, {})
  {
  }

  lemma {:induction false} InUnion<N(!new)>(cs: seq<set<N>>, x: N)
    ensures x in Union(cs) <==> exists i :: 0 <= i < |cs| && x in cs[i]
  {
    if cs != [] {
      InUnion(cs[..|cs| - 1], x);
    }
  }

  /** Two nodes are in the same component just when they are connected. */
  lemma SameComponentExactly<N(!new)>(g: Graph<N>, cs: seq<set<N>>, u: N, v: N, i: nat)
    requires Undirected(g) && AreComponents(g, cs) && i < |cs| && u in cs[i]
    ensures v in cs[i] <==> Connected(g, u, v)
  {
    hide Connected;
    var node :| node in cs[i] && node in g && forall x :: x in cs[i] <==> Connected(g, node, x);
    if v in cs[i] {
      ConnectedBack(g, node, u);
      ConnectedOnward(g, u, node, v);
    } else if Connected(g, u, v) {
      ConnectedOnward(g, node, u, v);
    }
  }

  // ---------------------------------------------------------------------------------------
  // Decomposing a source

  /** A pipe with its parents; a pipe without steps is not connected to anything. */
  datatype NamedPipe = NamedPipe(name: string, isEmpty: bool, parent: Option<NamedPipe>)

  datatype Resource = Resource(pipe: NamedPipe, selected: bool)

  type Edge = (string, string)

  /** The edges from a pipe up through its parents, up to one without steps. */
  function EdgesUp(pipe: NamedPipe): seq<Edge> {
    if pipe.parent.None? || pipe.parent.value.isEmpty then []
    else [(pipe.parent.value.name, pipe.name)] + EdgesUp(pipe.parent.value)
  }

  /** The edges of a selected pipe; an isolated pipe stands as an edge to itself. */
  function EdgesOf(pipe: NamedPipe): seq<Edge> {
    if EdgesUp(pipe) == [] then [(pipe.name, pipe.name)] else EdgesUp(pipe)
  }

  function Dag(selected: seq<NamedPipe>): seq<Edge> {
    if selected == [] then [] else Dag(selected[..|selected| - 1]) + EdgesOf(selected[|selected| - 1])
  }

  function Selected(resources: seq<Resource>): seq<NamedPipe> {
    if resources == [] then []
    else Selected(resources[..|resources| - 1]) + if resources[|resources| - 1].selected
      then [resources[|resources| - 1].pipe] else []
  }

  function NamesOf(pipes: seq<NamedPipe>): set<string> {
    set p | p in pipes :: p.name
  }

  method SelectedDag(selected: seq<NamedPipe>) returns (dag: seq<Edge>)
    ensures dag == Dag(selected)
  {
    dag := [];
    for n := 0 to |selected|
      invariant dag == Dag(selected[..n])
    {
      var pipe := selected[n];
      ghost var before := dag;
      while pipe.parent.Some?
        invariant before + EdgesUp(selected[n]) == dag + EdgesUp(pipe)
        invariant if pipe == selected[n] then dag == before else pipe < selected[n] && |dag| > |before|
        decreases pipe
      {
        var parent := pipe.parent.value;
        if parent.isEmpty {
          // what is not connected on purpose is left alone
          break;
        }
        dag := dag + [(parent.name, pipe.name)];
        pipe := parent;
      }
      assert EdgesUp(pipe) == [] && dag == before + EdgesUp(selected[n]);
      if pipe == selected[n] {
        // an isolated element
        dag := dag + [(pipe.name, pipe.name)];
      }
      assert selected[..n + 1][..n] == selected[..n];
    }
    assert selected[..|selected|] == selected;
  }

  /** The edges are in the graph, or are isolated nodes of it. */
  ghost predicate HasEdges(g: Graph<string>, edges: seq<Edge>) {
    forall e :: e in edges ==> e.0 in g && e.1 in g && (e.0 != e.1 ==> e.0 in g[e.1])
  }

  lemma EdgeConnects(g: Graph<string>, edges: seq<Edge>, e: Edge)
    requires Undirected(g) && HasEdges(g, edges) && e in edges
    ensures Connected(g, e.1, e.0) && Connected(g, e.1, e.1)
  {
    ConnectedSelf(g, e.1);
    if e.0 != e.1 {
      ConnectedNeighbour(g, e.1, e.0);
    }
  }

  /** All that the edges of a pipe mention is connected to the pipe. */
  lemma {:induction false} EdgesReach(g: Graph<string>, pipe: NamedPipe, e: Edge)
    requires Undirected(g) && HasEdges(g, EdgesUp(pipe)) && e in EdgesUp(pipe)
    ensures Connected(g, pipe.name, e.0) && Connected(g, pipe.name, e.1)
  {
    hide Connected;
    var parent := pipe.parent.value;
    var first := (parent.name, pipe.name);
    assert EdgesUp(pipe) == [first] + EdgesUp(parent);
    EdgeConnects(g, EdgesUp(pipe), first);
    if e != first {
      assert e in EdgesUp(parent);
      EdgesReach(g, parent, e);
      ConnectedOnward(g, pipe.name, parent.name, e.0);
      ConnectedOnward(g, pipe.name, parent.name, e.1);
    }
  }

  lemma {:induction false} InDag(selected: seq<NamedPipe>, e: Edge)
    ensures e in Dag(selected) <==> exists n :: 0 <= n < |selected| && e in EdgesOf(selected[n])
  {
    hide EdgesOf;
    if selected != [] {
      var front, last := selected[..|selected| - 1], selected[|selected| - 1];
      InDag(front, e);
      assert e in Dag(selected) <==> e in Dag(front) || e in EdgesOf(last);
      assert forall n :: 0 <= n < |front| ==> front[n] == selected[n];
    }
  }

  lemma PipeInDag(selected: seq<NamedPipe>, n: nat)
    requires n < |selected|
    ensures IsNode(Dag(selected), selected[n].name)
  {
    var e := EdgesOf(selected[n])[0];
    assert e.1 == selected[n].name && e in EdgesOf(selected[n]);
    InDag(selected, e);
    var k :| 0 <= k < |Dag(selected)| && Dag(selected)[k] == e;
  }

  lemma RepresentsEdges(g: Graph<string>, edges: seq<Edge>)
    requires Represents(g, edges, false)
    ensures HasEdges(g, edges)
  {
    forall e | e in edges ensures e.0 in g && e.1 in g && (e.0 != e.1 ==> e.0 in g[e.1]) {
      var k :| 0 <= k < |edges| && edges[k] == e;
      assert IsNode(edges, e.0) && IsNode(edges, e.1);
      assert e.0 != e.1 ==> Adjacent(edges, false, e.1, e.0);
    }
  }

  /** Every node is connected to a selected pipe. */
  lemma {:induction false} NodeOfSelected(g: Graph<string>, selected: seq<NamedPipe>, x: string)
    requires Undirected(g) && Represents(g, Dag(selected), false) && x in g
    ensures exists n :: 0 <= n < |selected| && Connected(g, selected[n].name, x)
  {
    hide Connected, Undirected;
    assert IsNode(Dag(selected), x);
    var k :| 0 <= k < |Dag(selected)| && (Dag(selected)[k].0 == x || Dag(selected)[k].1 == x);
    var e := Dag(selected)[k];
    InDag(selected, e);
    var n :| 0 <= n < |selected| && e in EdgesOf(selected[n]);
    RepresentsEdges(g, Dag(selected));
    forall d | d in EdgesOf(selected[n]) ensures d in Dag(selected) {
      InDag(selected, d);
    }
    assert HasEdges(g, EdgesOf(selected[n]));
    if EdgesUp(selected[n]) == [] {
      EdgeConnects(g, EdgesOf(selected[n]), e);
    } else {
      EdgesReach(g, selected[n], e);
    }
    assert Connected(g, selected[n].name, x);
  }

  /** The selections of the sub-sources: each selected resource is in exactly one, none is empty, and
      resources are together just when edges connect them. */
  ghost predicate Decomposed(g: Graph<string>, names: set<string>, subs: seq<set<string>>) {
    && Union(subs) == names
    && (forall i :: 0 <= i < |subs| ==> subs[i] != {})
    && (forall i, j :: 0 <= i < j < |subs| ==> subs[i] !! subs[j])
    && (forall i, u, v :: 0 <= i < |subs| && u in subs[i] && v in names ==> (v in subs[i] <==> Connected(g, u, v)))
  }

  function Intersections(components: seq<set<string>>, names: set<string>): (r: seq<set<string>>)
    ensures |r| == |components| && forall i :: 0 <= i < |components| ==> r[i] == components[i] * names
  {
    if components == [] then []
    else Intersections(components[..|components| - 1], names) + [components[|components| - 1] * names]
  }

  lemma {:induction false} UnionIntersected(components: seq<set<string>>, names: set<string>)
    ensures Union(Intersections(components, names)) == Union(components) * names
  {
    if components != [] {
      var front := components[..|components| - 1];
      UnionIntersected(front, names);
      assert Intersections(components, names)[..|components| - 1] == Intersections(front, names);
    }
  }

  // ---------------------------------------------------------------------------------------
  // The decomposition, told by the resources

  ghost predicate IsSelected(resources: seq<Resource>, name: string) {
    exists n :: 0 <= n < |resources| && resources[n].selected && resources[n].pipe.name == name
  }

  /** Up from `pipe`, through parents that have steps, a pipe `child` takes its data from `parent`. */
  predicate TakesFrom(pipe: NamedPipe, parent: string, child: string) {
    pipe.parent.Some? && !pipe.parent.value.isEmpty
    && ((pipe.name == child && pipe.parent.value.name == parent) || TakesFrom(pipe.parent.value, parent, child))
  }

  /** For some selected resource one of the two takes its data from the other. */
  ghost predicate Related(resources: seq<Resource>, a: string, b: string) {
    exists n :: 0 <= n < |resources| && resources[n].selected
                && (TakesFrom(resources[n].pipe, a, b) || TakesFrom(resources[n].pipe, b, a))
  }

  /** Each name is related to the next. */
  ghost predicate Chain(resources: seq<Resource>, names: seq<string>) {
    forall k :: 0 <= k < |names| - 1 ==> Related(resources, names[k], names[k + 1])
  }

  ghost predicate ShareData(resources: seq<Resource>, a: string, b: string) {
    exists names :: names != [] && names[0] == a && names[|names| - 1] == b && Chain(resources, names)
  }

  lemma {:induction false} SelectedExactly(resources: seq<Resource>, pipe: NamedPipe)
    ensures pipe in Selected(resources)
            <==> exists n :: 0 <= n < |resources| && resources[n].selected && resources[n].pipe == pipe
  {
    if resources != [] {
      var front, last := resources[..|resources| - 1], resources[|resources| - 1];
      SelectedExactly(front, pipe);
      assert forall n :: 0 <= n < |front| ==> front[n] == resources[n];
      assert pipe in Selected(resources) <==> pipe in Selected(front) || (last.selected && last.pipe == pipe);
    }
  }

  lemma NamesExactly(resources: seq<Resource>, name: string)
    ensures name in NamesOf(Selected(resources)) <==> IsSelected(resources, name)
  {
    hide Selected;
    if name in NamesOf(Selected(resources)) {
      var p :| p in Selected(resources) && p.name == name;
      SelectedExactly(resources, p);
    }
    if IsSelected(resources, name) {
      var n :| 0 <= n < |resources| && resources[n].selected && resources[n].pipe.name == name;
      SelectedExactly(resources, resources[n].pipe);
    }
  }

  lemma {:induction false} EdgesUpExactly(pipe: NamedPipe, a: string, b: string)
    ensures (a, b) in EdgesUp(pipe) <==> TakesFrom(pipe, a, b)
    decreases pipe
  {
    if pipe.parent.Some? && !pipe.parent.value.isEmpty {
      EdgesUpExactly(pipe.parent.value, a, b);
    }
  }

  lemma EdgeExactly(resources: seq<Resource>, a: string, b: string)
    requires a != b
    ensures Adjacent(Dag(Selected(resources)), false, a, b) <==> Related(resources, a, b)
  {
    hide Selected, Dag, TakesFrom, EdgesUp;
    OneEdgeExactly(resources, a, b);
    OneEdgeExactly(resources, b, a);
  }

  lemma OneEdgeExactly(resources: seq<Resource>, a: string, b: string)
    requires a != b
    ensures (a, b) in Dag(Selected(resources))
            <==> exists n :: 0 <= n < |resources| && resources[n].selected && TakesFrom(resources[n].pipe, a, b)
  {
    hide Selected, Dag, TakesFrom, EdgesUp;
    var selected := Selected(resources);
    InDag(selected, (a, b));
    if (a, b) in Dag(selected) {
      var n :| 0 <= n < |selected| && (a, b) in EdgesOf(selected[n]);
      EdgesUpExactly(selected[n], a, b);
      SelectedExactly(resources, selected[n]);
    }
    if m :| 0 <= m < |resources| && resources[m].selected && TakesFrom(resources[m].pipe, a, b) {
      EdgesUpExactly(resources[m].pipe, a, b);
      SelectedExactly(resources, resources[m].pipe);
      var n :| 0 <= n < |selected| && selected[n] == resources[m].pipe;
      assert (a, b) in EdgesOf(selected[n]);
    }
  }

  lemma ChainOnward(resources: seq<Resource>, a: string, names: seq<string>)
    requires names != [] && Related(resources, a, names[0]) && Chain(resources, names)
    ensures Chain(resources, [a] + names)
  {
    hide Related;
    var all := [a] + names;
    forall k | 0 <= k < |all| - 1 ensures Related(resources, all[k], all[k + 1]) {
      assert k > 0 ==> all[k] == names[k - 1] && all[k + 1] == names[k];
    }
  }

  lemma {:induction false} LeadsShares(g: Graph<string>, resources: seq<Resource>, u: string, path: seq<string>,
                                       v: string)
    requires Represents(g, Dag(Selected(resources)), false) && Leads(g, u, path, v)
    ensures ShareData(resources, u, v)
    decreases path
  {
    hide Related, Dag, Selected;
    if path == [] {
      assert Chain(resources, [u]);
    } else {
      LeadsShares(g, resources, path[0], path[1..], v);
      EdgeExactly(resources, u, path[0]);
      var names :| names != [] && names[0] == path[0] && names[|names| - 1] == v && Chain(resources, names);
      ChainOnward(resources, u, names);
      assert ([u] + names)[|names|] == v;
    }
  }

  lemma {:induction false} ChainConnects(g: Graph<string>, resources: seq<Resource>, names: seq<string>)
    requires Undirected(g) && Represents(g, Dag(Selected(resources)), false)
    requires names != [] && names[0] in g && Chain(resources, names)
    ensures Connected(g, names[0], names[|names| - 1])
    decreases names
  {
    hide Related, Dag, Selected, Connected;
    ConnectedSelf(g, names[0]);
    if |names| > 1 {
      var tail := names[1..];
      assert Related(resources, names[0], names[0 + 1]);
      forall k | 0 <= k < |tail| - 1 ensures Related(resources, tail[k], tail[k + 1]) {
        assert Related(resources, names[k + 1], names[(k + 1) + 1]);
      }
      if names[0] != names[1] {
        EdgeExactly(resources, names[0], names[1]);
        ConnectedNeighbour(g, names[0], names[1]);
      }
      ChainConnects(g, resources, tail);
      ConnectedOnward(g, names[0], names[1], names[|names| - 1]);
    }
  }

  /** Names of selected resources are connected just when a chain of related pipes links them. */
  lemma ConnectedExactly(resources: seq<Resource>, u: string, v: string)
    requires u in GraphOf(Dag(Selected(resources)), false)
    requires Undirected(GraphOf(Dag(Selected(resources)), false))
    requires Represents(GraphOf(Dag(Selected(resources)), false), Dag(Selected(resources)), false)
    ensures Connected(GraphOf(Dag(Selected(resources)), false), u, v) <==> ShareData(resources, u, v)
  {
    hide Chain, Undirected, Represents, GraphOf;
    var g := GraphOf(Dag(Selected(resources)), false);
    if Connected(g, u, v) {
      var path :| Leads(g, u, path, v);
      LeadsShares(g, resources, u, path, v);
    }
    if ShareData(resources, u, v) {
      var names :| names != [] && names[0] == u && names[|names| - 1] == v && Chain(resources, names);
      ChainConnects(g, resources, names);
    }
  }

  /** Decomposes by "scc": the names in the sub-sources are exactly those of selected resources, each is in
      one sub-source, no sub-source is empty, and two are in the same one exactly when a chain of pipes
      that take their data from one another links them. */
  method Decompose(resources: seq<Resource>) returns (subs: seq<set<string>>)
    ensures forall x :: (exists i :: 0 <= i < |subs| && x in subs[i]) <==> IsSelected(resources, x)
    ensures forall i, j :: 0 <= i < j < |subs| ==> subs[i] !! subs[j]
    ensures forall i :: 0 <= i < |subs| ==> subs[i] != {}
    ensures forall i, u, v :: 0 <= i < |subs| && u in subs[i] && IsSelected(resources, v) ==>
              (v in subs[i] <==> ShareData(resources, u, v))
  {
    hide *;
    ghost var g;
    subs, g := Decomposition(resources);
    DecomposedMeans(resources, subs);
  }

  lemma DecomposedMeans(resources: seq<Resource>, subs: seq<set<string>>)
    requires
      var g := GraphOf(Dag(Selected(resources)), false);
      && Undirected(g) && Represents(g, Dag(Selected(resources)), false)
      && Decomposed(g, NamesOf(Selected(resources)), subs)
    ensures forall x :: (exists i :: 0 <= i < |subs| && x in subs[i]) <==> IsSelected(resources, x)
    ensures forall i, j :: 0 <= i < j < |subs| ==> subs[i] !! subs[j]
    ensures forall i :: 0 <= i < |subs| ==> subs[i] != {}
    ensures forall i, u, v :: 0 <= i < |subs| && u in subs[i] && IsSelected(resources, v) ==>
              (v in subs[i] <==> ShareData(resources, u, v))
  {
    hide IsSelected, Represents, Undirected, Connected, GraphOf, Dag, Selected, NamesOf, Union, ShareData;
    var g, names := GraphOf(Dag(Selected(resources)), false), NamesOf(Selected(resources));
    NamesAreNodes(g, Selected(resources));
    forall x ensures (exists i :: 0 <= i < |subs| && x in subs[i]) <==> IsSelected(resources, x) {
      NamesExactly(resources, x);
      InUnion(subs, x);
    }
    forall i, u, v | 0 <= i < |subs| && u in subs[i] && IsSelected(resources, v)
      ensures v in subs[i] <==> ShareData(resources, u, v)
    {
      NamesExactly(resources, v);
      InUnion(subs, u);
      ConnectedExactly(resources, u, v);
    }
  }

  method Decomposition(resources: seq<Resource>) returns (subs: seq<set<string>>, ghost g: Graph<string>)
    ensures g == GraphOf(Dag(Selected(resources)), false)
    ensures Undirected(g) && Represents(g, Dag(Selected(resources)), false)
    ensures Decomposed(g, NamesOf(Selected(resources)), subs)
  {
    hide Connected, IsComponent, Represents, Undirected, Union, GraphOf;
    var selected := Selected(resources);
    var dag := SelectedDag(selected);
    var graph := EdgesToNodes(dag, false);
    g := graph;
    var components := FindComponents(graph);
    // parts are cut down to what was asked for
    var names := NamesOf(selected);
    subs := Intersections(components, names);
    UnionIntersected(components, names);
    NamesAreNodes(g, selected);
    assert Union(subs) == names;
    forall i | 0 <= i < |subs| ensures subs[i] != {} {
      ComponentSelected(g, selected, components[i]);
    }
    forall i, u, v | 0 <= i < |subs| && u in subs[i] && v in names ensures v in subs[i] <==> Connected(g, u, v) {
      SameComponentExactly(g, components, u, v, i);
    }
  }

  lemma NamesAreNodes(g: Graph<string>, selected: seq<NamedPipe>)
    requires Represents(g, Dag(selected), false)
    ensures NamesOf(selected) <= g.Keys
  {
    forall n | 0 <= n < |selected| ensures selected[n].name in g {
      PipeInDag(selected, n);
    }
  }

  lemma ComponentSelected(g: Graph<string>, selected: seq<NamedPipe>, c: set<string>)
    requires Undirected(g) && Represents(g, Dag(selected), false) && IsComponent(g, c)
    ensures c * NamesOf(selected) != {}
  {
    hide Connected, Undirected, Represents;
    var node :| node in c && node in g && forall v :: v in c <==> Connected(g, node, v);
    NodeOfSelected(g, selected, node);
    var n :| 0 <= n < |selected| && Connected(g, selected[n].name, node);
    ConnectedBack(g, selected[n].name, node);
    assert selected[n].name in c * NamesOf(selected);
  }

  /** No edge leads from one sub-source's data to another's: all pipes that a selected pipe takes its
      data from are connected to it. */
  lemma EdgeWithinComponent(g: Graph<string>, selected: seq<NamedPipe>, components: seq<set<string>>,
                            i: nat, e: Edge)
    requires Undirected(g) && Represents(g, Dag(selected), false) && AreComponents(g, components)
    requires e in Dag(selected) && i < |components|
    ensures e.0 in components[i] <==> e.1 in components[i]
  {
    hide Connected, Undirected, Represents, IsComponent;
    RepresentsEdges(g, Dag(selected));
    EdgeConnects(g, Dag(selected), e);
    if e.1 in components[i] {
      SameComponentExactly(g, components, e.1, e.0, i);
    }
    if e.0 in components[i] {
      ConnectedBack(g, e.1, e.0);
      SameComponentExactly(g, components, e.0, e.1, i);
    }
  }
}
