/** Extraction of selected pipes: connecting them, and iterating what was connected. */
module Extraction {
  import opened PipeFlow
  import opened PipeForest
  import Concurrency
  import PI = PipeIterator

  /** Generators of root pipes, by the id of the pipe. */
  type Generators = map<PipeId, PI.Seed>

  ghost predicate Generates(generators: Generators, ids: seq<PipeId>) {
    forall i :: i in ids ==> i in generators && generators[i].pipe == i
  }

  ghost function SeedsOf(generators: Generators, ids: seq<PipeId>): seq<PI.Seed>
    requires Generates(generators, ids)
  {
    if ids == [] then []
    else
      assert forall i :: i in ids[..|ids| - 1] ==> i in ids;
      SeedsOf(generators, ids[..|ids| - 1]) + [generators[ids[|ids| - 1]]]
  }

  lemma {:induction false} SeedsLocated(net: Network, generators: Generators, ids: seq<PipeId>)
    requires Generates(generators, ids) && forall i :: i in ids ==> Located(net, 0, i)
    ensures forall s :: s in SeedsOf(generators, ids) ==> Located(net, 0, s.pipe)
  {
    if ids != [] {
      assert forall i :: i in ids[..|ids| - 1] ==> i in ids;
      SeedsLocated(net, generators, ids[..|ids| - 1]);
    }
  }

  // ---------------------------------------------------------------------------------------
  // The network

  /** Pipe `q` of the network: the steps of the original, and behind them, if it has children there, a
      fork that sends an item once to the start of each of them and, if `q` is selected and parents are
      to be yielded, once to the position of the fork, where it leaves. */
  ghost predicate Connected(net: Network, pipes: seq<Pipe>, yieldParents: bool, base: seq<Step>, tree: Tree, q: PipeId)
    requires q in net.pipes
  {
    var steps := net.pipes[q];
    if exists c :: c in net.pipes && c in tree.up && tree.up[c] == q then
      && |steps| == |base| + 1 && steps[..|base|] == base && steps[|base|].Fork?
      && var targets := steps[|base|].targets;
         && (forall i, j :: 0 <= i < j < |targets| ==> targets[i].pipe != targets[j].pipe)
         && forall t :: t in targets <==>
              || (t.step == -1 && t.pipe in net.pipes && t.pipe in tree.up && tree.up[t.pipe] == q)
              || (t == Target(q, |base|) && yieldParents && exists p :: p in pipes && p.instanceId == q)
    else steps == base
  }

  /** The pipes and all their parents as one network: clones of their steps, every parent with a fork
      to its children and, if it is selected and parents are to be yielded, to itself. A child comes
      before another one if a selected pipe below it comes behind all those below the other. */
  ghost predicate Connects(net: Network, pipes: seq<Pipe>, yieldParents: bool, origin: map<PipeId, Pipe>, tree: Tree)
    requires Rooted(tree)
    reads origin.Values
  {
    && Routed(net)
    && (forall i :: i in net.pipes <==> exists p :: p in pipes && i in Line(tree, p.instanceId))
    && (forall i :: i in net.pipes ==>
          i in origin && Connected(net, pipes, yieldParents, origin[i].steps, tree, i))
    && ForkedInOrder(tree, pipes, net.pipes)
  }

  lemma PipesConnected(net: Network, pipes: seq<Pipe>, yieldParents: bool, origin: map<PipeId, Pipe>, tree: Tree,
                       owners: set<PipeId>)
    requires Rooted(tree) && Routed(net) && forall i :: i in net.pipes <==> Needed(tree, pipes, i)
    requires Forks(net.pipes, BaseSteps(origin, net.pipes.Keys), tree, net.pipes.Keys, owners)
    requires owners == if yieldParents then set i | i in PipeForest.Ids(pipes) else {}
    requires ForkedInOrder(tree, pipes, net.pipes)
    ensures Connects(net, pipes, yieldParents, origin, tree)
  {
    hide NoForks, Rooted, Routed, Line, ForkFits, ForkedInOrder;
    forall q | q in net.pipes ensures q in origin && Connected(net, pipes, yieldParents, origin[q].steps, tree, q) {
      assert q in BaseSteps(origin, net.pipes.Keys);
      IsOwner(pipes, q);
      ForkConnects(net, pipes, yieldParents, origin[q].steps, tree, q, q in owners);
    }
  }

  lemma IsOwner(pipes: seq<Pipe>, q: PipeId)
    ensures q in PipeForest.Ids(pipes) <==> exists p :: p in pipes && p.instanceId == q
  {
    if k :| 0 <= k < |pipes| && PipeForest.Ids(pipes)[k] == q {
      assert pipes[k] in pipes;
    }
    if p :| p in pipes && p.instanceId == q {
      var k :| 0 <= k < |pipes| && pipes[k] == p;
      assert PipeForest.Ids(pipes)[k] == q;
    }
  }

  lemma ForkConnects(net: Network, pipes: seq<Pipe>, yieldParents: bool, base: seq<Step>, tree: Tree, q: PipeId,
                     own: bool)
    requires q in net.pipes && ForkFits(q, base, net.pipes[q], Kids(tree, net.pipes.Keys, q), own)
    requires own <==> yieldParents && exists p :: p in pipes && p.instanceId == q
    ensures Connected(net, pipes, yieldParents, base, tree, q)
  {
    var kids := Kids(tree, net.pipes.Keys, q);
    assert forall c :: c in kids <==> c in net.pipes && c in tree.up && tree.up[c] == q;
    if kids != {} {
      var c :| c in kids;
      assert c in net.pipes && c in tree.up && tree.up[c] == q;
    }
    assert forall t: Target :: t.step == -1 ==> t == Target(t.pipe, -1);
  }

  // ---------------------------------------------------------------------------------------
  // The order of the roots

  /** The roots of the selected pipes, each once, in the order in which they are served: of two of them,
      the second one has a pipe that comes behind all pipes of the first. */
  ghost predicate ServedInOrder(tree: Tree, pipes: seq<Pipe>, order: seq<PipeId>)
    requires Rooted(tree)
  {
    && (forall x, y :: 0 <= x < y < |order| ==> order[x] != order[y])
    && (forall r :: r in order <==> exists a :: 0 <= a < |pipes| && Root(tree, pipes[a].instanceId) == r)
    && forall x, y :: 0 <= x < y < |order| ==> BehindAll(tree, pipes, order[y], order[x])
  }

  lemma ServedFromBehind(tree: Tree, pipes: seq<Pipe>, sources: seq<PipeId>)
    requires Rooted(tree) && LatestFirst(tree, pipes, sources)
    ensures ServedInOrder(tree, pipes, Reversed(sources))
  {
    hide Root, Rooted, BehindAll;
    var order, n := Reversed(sources), |sources|;
    forall r ensures r in order <==> r in sources {
      if r in sources {
        var k :| 0 <= k < n && sources[k] == r;
        assert order[n - 1 - k] == r;
      }
    }
  }

  /** No later pipe has the root of the first one. */
  ghost predicate Unshared(tree: Tree, pipes: seq<Pipe>)
    requires Rooted(tree)
  {
    pipes != []
    && forall a :: 1 <= a < |pipes| ==> Root(tree, pipes[a].instanceId) != Root(tree, pipes[0].instanceId)
  }

  /** A root that no later pipe shares with the first one is served first. */
  lemma FirstIsServedFirst(tree: Tree, pipes: seq<Pipe>, order: seq<PipeId>)
    requires Rooted(tree) && ServedInOrder(tree, pipes, order) && Unshared(tree, pipes)
    ensures order != [] && order[0] == Root(tree, pipes[0].instanceId)
  {
    hide Root, Rooted;
    var first := Root(tree, pipes[0].instanceId);
    assert first in order;
    var y :| 0 <= y < |order| && order[y] == first;
    assert order[0] in order;
    FirstBehindNone(tree, pipes, order[0]);
  }

  lemma FirstBehindNone(tree: Tree, pipes: seq<Pipe>, s: PipeId)
    requires Rooted(tree) && Unshared(tree, pipes)
    requires exists a :: 0 <= a < |pipes| && Root(tree, pipes[a].instanceId) == s
    ensures !BehindAll(tree, pipes, Root(tree, pipes[0].instanceId), s)
  {
    hide Root, Rooted;
  }

  /** Without parents, the pipes are served in the order in which they were selected. */
  ghost predicate ServedAsSelected(tree: Tree, pipes: seq<Pipe>, order: seq<PipeId>) {
    (forall p :: p in pipes ==> p.instanceId !in tree.up) ==>
      |order| == |pipes| && forall k :: 0 <= k < |pipes| ==> order[k] == pipes[k].instanceId
  }

  lemma AsSelectedFromBehind(tree: Tree, pipes: seq<Pipe>, sources: seq<PipeId>)
    requires AllSources(tree, pipes, sources)
    ensures ServedAsSelected(tree, pipes, Reversed(sources))
  {
  }

  /** What the generators of these roots yield, one root after the other. */
  ghost function Served(net: Network, generators: Generators, order: seq<PipeId>): seq<PipeItem>
    requires Routed(net) && Generates(generators, order)
  {
    if order == [] then []
    else
      assert forall i :: i in order[1..] ==> i in order;
      PI.SeedYields(net, generators[order[0]]) + Served(net, generators, order[1..])
  }

  lemma {:induction false} LineIsServed(net: Network, generators: Generators, sources: seq<PipeId>)
    requires Routed(net) && Generates(generators, sources)
    ensures Generates(generators, Reversed(sources))
    ensures PI.SeedLine(net, SeedsOf(generators, sources)) == Served(net, generators, Reversed(sources))
    ensures PI.SeedEffort(net, SeedsOf(generators, sources)) == Effort(net, generators, Reversed(sources))
  {
    hide Routed, PI.SeedYields, PI.Sprout, Concurrency.InFlightEffort;
    forall i | i in Reversed(sources) ensures i in sources {
    }
    if sources != [] {
      var n := |sources| - 1;
      assert forall i :: i in sources[..n] ==> i in sources;
      LineIsServed(net, generators, sources[..n]);
      assert Reversed(sources) == [sources[n]] + Reversed(sources[..n]);
      var seeds := SeedsOf(generators, sources);
      assert seeds == SeedsOf(generators, sources[..n]) + [generators[sources[n]]];
      assert seeds[..|seeds| - 1] == SeedsOf(generators, sources[..n]);
    }
  }

  lemma {:induction false} SeedsAre(generators: Generators, ids: seq<PipeId>)
    requires Generates(generators, ids)
    ensures forall seed :: seed in SeedsOf(generators, ids) ==> exists i :: i in ids && seed == generators[i]
  {
    if ids != [] {
      assert forall i :: i in ids[..|ids| - 1] ==> i in ids;
      SeedsAre(generators, ids[..|ids| - 1]);
    }
  }

  // ---------------------------------------------------------------------------------------
  // Extraction

  /** What the generators of these roots may cause at most. */
  ghost function Effort(net: Network, generators: Generators, order: seq<PipeId>): nat
    requires Routed(net) && Generates(generators, order)
  {
    if order == [] then 0
    else
      assert forall i :: i in order[1..] ==> i in order;
      Concurrency.InFlightEffort(net, PI.Sprout(generators[order[0]])) + Effort(net, generators, order[1..])
  }

  /** What the root of the first pipe yields comes first, unless a later pipe shares it. */
  ghost predicate FirstRootFirst(net: Network, tree: Tree, pipes: seq<Pipe>, generators: Generators,
                                 items: seq<PipeItem>)
    requires Rooted(tree) && Routed(net)
  {
    Unshared(tree, pipes) ==>
      && Root(tree, pipes[0].instanceId) in generators
      && PI.SeedYields(net, generators[Root(tree, pipes[0].instanceId)]) <= items
  }

  /** Whatever the workers do: what is returned when the iterator stops is what the generators of the
      roots yield in the network that connects the selected pipes, nothing lost and nothing twice. It
      stops if some worker gets on whenever the main thread waits in vain; and in fifo mode, if all is
      synchronous, it has returned them in depth-first order, the first selected root first. */
  method ExtractPipes(pipes: seq<Pipe>, yieldParents: bool, generators: Generators, fifo: bool, maxParallelItems: nat,
                      diligent: bool, patience: nat, ghost origin: map<PipeId, Pipe>, tree: Tree, bound: nat)
    returns (items: seq<PipeItem>, finished: bool, net: Network, ghost order: seq<PipeId>)
    requires maxParallelItems >= 1
    requires Rooted(tree) && Originals(origin, Parents(origin), tree) && Selectable(pipes, origin)
    requires forall i :: i in origin ==> origin[i].steps != [] && NoForks(origin[i].steps)
    requires forall i :: i in tree.depth ==> tree.depth[i] <= bound
    requires forall p :: p in pipes ==>
               Root(tree, p.instanceId) in generators
               && generators[Root(tree, p.instanceId)].pipe == Root(tree, p.instanceId)
    ensures Connects(net, pipes, yieldParents, origin, tree)
    ensures ServedInOrder(tree, pipes, order) && ServedAsSelected(tree, pipes, order) && Generates(generators, order)
    ensures
      var served := Served(net, generators, order);
      && multiset(items) <= multiset(served) && (finished ==> multiset(items) == multiset(served))
      && (fifo && Synchronous(net) && (forall i :: i in order ==> PI.SeedAtOnce(generators[i])) ==>
            finished && items == served && FirstRootFirst(net, tree, pipes, generators, items))
    ensures diligent && patience >= Effort(net, generators, order) ==> finished
  {
    hide Forks, Originals, Selectable, Needed, NoForks, Routed, RootsOf, Lines, PI.SeedLine, PI.SeedEffort, Placed,
         Located, Root, Rooted, LatestFirst, AllSources, Connects, ServedInOrder, Served, PI.SeedYields, BaseSteps,
         Synchronous, ServedAsSelected, FirstRootFirst, Reversed, PI.SeedAtOnce, Effort, ForkedInOrder;
    var sources, pairs;
    ghost var owners;
    sources, pairs, owners := FromPipes(pipes, yieldParents, origin, tree);
    ghost var roots := PipeForest.Ids(sources);
    PairsPlaced(pairs, Parents(pairs), tree);
    assert Steps(pairs).Keys == pairs.Keys;
    net := NetworkOf(Steps(pairs), tree, bound);
    ForestIsRouted(Steps(pairs), BaseSteps(origin, pairs.Keys), tree, owners, bound);
    SourcesLocated(net, BaseSteps(origin, pairs.Keys), tree, owners, sources, pairs);
    RootsGenerate(tree, pipes, generators, roots);
    var seeds: seq<PI.Seed> := [];
    for n := 0 to |sources|
      invariant Generates(generators, PipeForest.Ids(sources)[..n])
      invariant seeds == SeedsOf(generators, PipeForest.Ids(sources)[..n])
    {
      assert PipeForest.Ids(sources)[n] in PipeForest.Ids(sources);
      assert PipeForest.Ids(sources)[..n + 1][..n] == PipeForest.Ids(sources)[..n];
      seeds := seeds + [generators[sources[n].instanceId]];
    }
    assert PipeForest.Ids(sources)[..|sources|] == roots;
    PipesConnected(net, pipes, yieldParents, origin, tree, owners);
    SeedsLocated(net, generators, roots);
    order := Reversed(roots);
    ServedFromBehind(tree, pipes, roots);
    AsSelectedFromBehind(tree, pipes, roots);
    LineIsServed(net, generators, roots);
    OrderMeans(net, tree, pipes, generators, roots);
    items, finished := PI.Extract(net, fifo, maxParallelItems, diligent, seeds, patience);
  }

  lemma RootsGenerate(tree: Tree, pipes: seq<Pipe>, generators: Generators, roots: seq<PipeId>)
    requires Rooted(tree) && LatestFirst(tree, pipes, roots)
    requires forall p :: p in pipes ==>
               Root(tree, p.instanceId) in generators
               && generators[Root(tree, p.instanceId)].pipe == Root(tree, p.instanceId)
    ensures Generates(generators, roots)
  {
    hide Root, Rooted, BehindAll;
    forall r | r in roots ensures r in generators && generators[r].pipe == r {
      var a :| 0 <= a < |pipes| && Root(tree, pipes[a].instanceId) == r;
      assert pipes[a] in pipes;
    }
  }

  lemma OrderMeans(net: Network, tree: Tree, pipes: seq<Pipe>, generators: Generators, sources: seq<PipeId>)
    requires Rooted(tree) && Routed(net) && Generates(generators, sources) && Generates(generators, Reversed(sources))
    requires ServedInOrder(tree, pipes, Reversed(sources))
    ensures (forall i :: i in Reversed(sources) ==> PI.SeedAtOnce(generators[i])) ==>
              forall seed :: seed in SeedsOf(generators, sources) ==> PI.SeedAtOnce(seed)
    ensures FirstRootFirst(net, tree, pipes, generators, Served(net, generators, Reversed(sources)))
  {
    hide Root, Rooted, Routed, ServedInOrder, PI.SeedYields, PI.SeedAtOnce, SeedsOf, Reversed, Unshared;
    var order := Reversed(sources);
    SeedsAre(generators, sources);
    forall i | i in sources ensures i in order {
      var k :| 0 <= k < |sources| && sources[k] == i;
      assert order[|sources| - 1 - k] == i;
    }
    if Unshared(tree, pipes) {
      FirstIsServedFirst(tree, pipes, order);
      assert order[0] in order;
    }
  }

  lemma PairsPlaced(pairs: map<PipeId, Pipe>, parents: map<PipeId, Pipe?>, tree: Tree)
    requires Placed(pairs, parents, tree)
    ensures forall i :: i in pairs ==> i in tree.depth
  {
  }

  lemma SourcesLocated(net: Network, base: map<PipeId, seq<Step>>, tree: Tree, owners: set<PipeId>, sources: seq<Pipe>,
                       pairs: map<PipeId, Pipe>)
    requires Forks(net.pipes, base, tree, net.pipes.Keys, owners) && net.pipes.Keys == pairs.Keys
             && AreClones(sources, pairs)
    ensures forall i :: i in PipeForest.Ids(sources) ==> Located(net, 0, i)
  {
    hide NoForks;
    ForksBase(net.pipes, base, tree, net.pipes.Keys, owners);
    forall i | i in PipeForest.Ids(sources) ensures Located(net, 0, i) {
      var k :| 0 <= k < |sources| && PipeForest.Ids(sources)[k] == i;
      assert sources[k] in sources;
    }
  }
}
