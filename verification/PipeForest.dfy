/**
  Making the network of pipes that is iterated: the selected pipes and all their parents are cloned,
  each once, every parent is made to fork to its children, and the pipes without parent become the
  sources.
*/
module PipeForest {
  import opened Options
  import opened PipeFlow

  predicate HasPipe(targets: seq<Target>, pipe: PipeId) {
    exists i :: 0 <= i < |targets| && targets[i].pipe == pipe
  }

  /** The steps after forking to `child`: the fork is the tail, and forks to each pipe only once. */
  function Forked(steps: seq<Step>, child: PipeId, childStep: int): seq<Step>
    requires steps != []
  {
    var tail := steps[|steps| - 1];
    if !tail.Fork? then steps + [Fork([Target(child, childStep)])]
    else if HasPipe(tail.targets, child) then steps
    else steps[|steps| - 1 := Fork(tail.targets + [Target(child, childStep)])]
  }

  class Pipe {
    const instanceId: PipeId
    var parent: Pipe?
    var steps: seq<Step>

    constructor (instanceId: PipeId, steps: seq<Step>, parent: Pipe?)
      ensures this.instanceId == instanceId && this.steps == steps && this.parent == parent
    {
      this.instanceId, this.steps, this.parent := instanceId, steps, parent;
    }

    method Clone() returns (c: Pipe)
      ensures fresh(c) && c.instanceId == instanceId && c.steps == steps && c.parent == parent
    {
      c := new Pipe(instanceId, steps, parent);
    }

    method ForkTo(child: PipeId, childStep: int)
      requires steps != []
      modifies this`steps
      ensures steps == Forked(old(steps), child, childStep)
    {
      var tail := steps[|steps| - 1];
      if !tail.Fork? {
        steps := steps + [Fork([Target(child, childStep)])];
      } else if !HasPipe(tail.targets, child) {
        steps := steps[|steps| - 1 := Fork(tail.targets + [Target(child, childStep)])];
      }
    }
  }

  // ---------------------------------------------------------------------------------------
  // Trees of pipes

  /** `up` leads from a pipe to its parent, if it has one; parents are closer to the root. */
  datatype Tree = Tree(up: map<PipeId, PipeId>, depth: map<PipeId, nat>)

  ghost predicate Rooted(tree: Tree) {
    forall i :: i in tree.up ==> i in tree.depth && tree.up[i] in tree.depth && tree.depth[tree.up[i]] < tree.depth[i]
  }

  /** A pipe and its parents up to the root. */
  ghost function Line(tree: Tree, i: PipeId): (line: seq<PipeId>)
    requires Rooted(tree)
    ensures line != [] && line[0] == i
    ensures line[|line| - 1] !in tree.up
    ensures forall k :: 0 <= k < |line| - 1 ==> line[k] in tree.up && tree.up[line[k]] == line[k + 1]
    decreases if i in tree.depth then tree.depth[i] else 0
  {
    if i in tree.up then [i] + Line(tree, tree.up[i]) else [i]
  }

  ghost function Root(tree: Tree, i: PipeId): PipeId
    requires Rooted(tree)
  {
    var line := Line(tree, i);
    line[|line| - 1]
  }

  ghost predicate NoForks(steps: seq<Step>) {
    forall i :: 0 <= i < |steps| ==> !steps[i].Fork?
  }

  ghost function Parents(pipes: map<PipeId, Pipe>): map<PipeId, Pipe?>
    reads pipes.Values
  {
    map i | i in pipes :: pipes[i].parent
  }

  function Steps(pipes: map<PipeId, Pipe>): map<PipeId, seq<Step>>
    reads pipes.Values
  {
    map i | i in pipes :: pipes[i].steps
  }

  predicate ById(pipes: map<PipeId, Pipe>) {
    forall i :: i in pipes ==> pipes[i].instanceId == i
  }

  /** The parent of a pipe is the one that the tree says. */
  predicate HasParent(pipes: map<PipeId, Pipe>, parents: map<PipeId, Pipe?>, tree: Tree, i: PipeId)
    requires i in parents
  {
    if i in tree.up then tree.up[i] in pipes && parents[i] == pipes[tree.up[i]] else parents[i] == null
  }

  /** The pipes by instance id, with all their parents. */
  ghost predicate Originals(origin: map<PipeId, Pipe>, parents: map<PipeId, Pipe?>, tree: Tree) {
    && Rooted(tree) && ById(origin) && parents.Keys == origin.Keys
    && forall i :: i in origin ==> i in tree.depth && HasParent(origin, parents, tree, i)
  }

  ghost predicate Selectable(pipes: seq<Pipe>, origin: map<PipeId, Pipe>) {
    && (forall p :: p in pipes ==> p.instanceId in origin && origin[p.instanceId] == p)
    && (forall i, j :: 0 <= i < j < |pipes| ==> pipes[i].instanceId != pipes[j].instanceId)
  }

  ghost predicate Needed(tree: Tree, pipes: seq<Pipe>, i: PipeId)
    requires Rooted(tree)
  {
    exists p :: p in pipes && i in Line(tree, p.instanceId)
  }

  // ---------------------------------------------------------------------------------------
  // Cloning

  /** Clones of some originals. Their parents are clones of the originals' parents, save those still
      pending, which may have the parent of their original. */
  ghost predicate Wired(pairs: map<PipeId, Pipe>, parents: map<PipeId, Pipe?>, origin: map<PipeId, Pipe>,
                        originals: map<PipeId, Pipe?>, tree: Tree, pending: set<PipeId>)
  {
    && ById(pairs) && parents.Keys == pairs.Keys <= originals.Keys && pairs.Values !! origin.Values
    && forall i :: i in pairs ==> HasParent(pairs, parents, tree, i) || (i in pending && parents[i] == originals[i])
  }

  ghost predicate AllNeeded(tree: Tree, pipes: seq<Pipe>, pairs: map<PipeId, Pipe>)
    requires Rooted(tree)
  {
    forall i :: i in pairs ==> Needed(tree, pipes, i)
  }

  /** A clone whose parent is no clone yet has its original's. */
  lemma NotYetWired(pairs: map<PipeId, Pipe>, parents: map<PipeId, Pipe?>, origin: map<PipeId, Pipe>,
                    originals: map<PipeId, Pipe?>,
                    tree: Tree, pending: set<PipeId>, i: PipeId)
    requires Originals(origin, originals, tree) && Wired(pairs, parents, origin, originals, tree, pending)
    requires i in pairs && parents[i] != null && parents[i] !in pairs.Values
    ensures i in tree.up && i in tree.depth && tree.up[i] in origin && parents[i] == origin[tree.up[i]]
            && parents[i].instanceId == tree.up[i]
    ensures tree.up[i] in tree.depth && tree.depth[tree.up[i]] < tree.depth[i]
  {
    assert !HasParent(pairs, parents, tree, i);
    assert HasParent(origin, originals, tree, i);
  }

  lemma WiredOnce(pairs: map<PipeId, Pipe>, parents: map<PipeId, Pipe?>, origin: map<PipeId, Pipe>,
                  originals: map<PipeId, Pipe?>,
                  tree: Tree, pending: set<PipeId>, i: PipeId, parent: Pipe)
    requires Originals(origin, originals, tree) && Wired(pairs, parents, origin, originals, tree, pending + {i})
    requires i in pairs && i in tree.up && tree.up[i] in origin
    requires parent.instanceId == tree.up[i] && parent !in origin.Values
    requires tree.up[i] in pairs ==> parent == pairs[tree.up[i]]
    ensures
      var q := tree.up[i];
      var pairs', parents' := pairs[q := parent], if q in pairs then parents[i := parent]
        else parents[i := parent][q := originals[q]];
      Wired(pairs', parents', origin, originals, tree, pending + {q})
  {
    assert tree.depth[tree.up[i]] < tree.depth[i];
    var q := tree.up[i];
    var pairs', parents' := pairs[q := parent], if q in pairs then parents[i := parent]
      else parents[i := parent][q := originals[q]];
    assert pairs'.Values <= pairs.Values + {parent};
    forall j | j in pairs' ensures HasParent(pairs', parents', tree, j)
      || (j in pending + {q} && parents'[j] == originals[j]) {
      if j != i && j in pairs {
        assert HasParent(pairs, parents, tree, j) || (j in pending + {i} && parents[j] == originals[j]);
      }
    }
  }

  lemma AllWired(pairs: map<PipeId, Pipe>, parents: map<PipeId, Pipe?>, origin: map<PipeId, Pipe>,
                 originals: map<PipeId, Pipe?>,
                 tree: Tree, pending: set<PipeId>, i: PipeId)
    requires Originals(origin, originals, tree) && Wired(pairs, parents, origin, originals, tree, pending + {i})
    requires i in pairs && (parents[i] == null || parents[i] in pairs.Values)
    ensures Wired(pairs, parents, origin, originals, tree, pending)
  {
    assert HasParent(origin, originals, tree, i);
  }

  /** Gives one clone the clone of its parent for a parent, making that if there is none yet. */
  method RewireParent(clone: Pipe, pairs: map<PipeId, Pipe>, ghost origin: map<PipeId, Pipe>, ghost tree: Tree,
                      ghost pending: set<PipeId>)
    returns (pairs': map<PipeId, Pipe>, parent: Pipe)
    requires Rooted(tree) && Originals(origin, Parents(origin), tree) && clone.instanceId in pairs
             && pairs[clone.instanceId] == clone
    requires Wired(pairs, Parents(pairs), origin, Parents(origin), tree, pending + {clone.instanceId})
    requires AllCopies(pairs, origin) && clone.parent != null && clone.parent !in pairs.Values
    modifies clone`parent
    ensures clone.instanceId in tree.up && parent.instanceId == tree.up[clone.instanceId]
    ensures pairs' == pairs[parent.instanceId := parent]
            && (parent.instanceId in pairs ==> parent == pairs[parent.instanceId])
    ensures parent.instanceId !in pairs ==> fresh(parent)
    ensures Parents(origin) == old(Parents(origin))
    ensures Wired(pairs', Parents(pairs'), origin, Parents(origin), tree, pending + {parent.instanceId})
    ensures AllCopies(pairs', origin)
  {
    hide Wired, Originals, ById, Rooted;
    ghost var parents, originals, i := Parents(pairs), Parents(origin), clone.instanceId;
    OpenWired(pairs, parents, origin, originals, tree, pending + {i});
    NotYetWired(pairs, parents, origin, originals, tree, pending + {i}, i);
    var parentId := clone.parent.instanceId;
    pairs' := pairs;
    if parentId !in pairs' {
      parent := clone.parent.Clone();
      pairs' := pairs'[parentId := parent];
    } else {
      parent := pairs'[parentId];
      MapKept(pairs, parentId);
      IdKept(pairs, parentId);
    }
    WiredOnce(pairs, parents, origin, originals, tree, pending, i, parent);
    clone.parent := pairs'[parentId];
    assert Parents(origin) == originals;
    assert Parents(pairs') == if parentId in pairs then parents[i := parent]
      else parents[i := parent][parentId := originals[parentId]];
  }

  lemma MapKept(pairs: map<PipeId, Pipe>, i: PipeId)
    requires i in pairs
    ensures pairs[i := pairs[i]] == pairs
  {
  }

  lemma IdKept(pairs: map<PipeId, Pipe>, i: PipeId)
    requires ById(pairs) && i in pairs
    ensures pairs[i].instanceId == i
  {
  }

  /** Gives the clone and its parents clones for parents, up to one that has one already. */
  method WireUp(start: Pipe, pairs: map<PipeId, Pipe>, ghost origin: map<PipeId, Pipe>, ghost tree: Tree,
                ghost pipes: seq<Pipe>, ghost pending: set<PipeId>)
    returns (pairs': map<PipeId, Pipe>)
    requires Rooted(tree) && Originals(origin, Parents(origin), tree) && start.instanceId in pairs
             && pairs[start.instanceId] == start
    requires Wired(pairs, Parents(pairs), origin, Parents(origin), tree, pending + {start.instanceId})
    requires AllNeeded(tree, pipes, pairs) && AllCopies(pairs, origin)
    modifies pairs.Values
    ensures pairs.Keys <= pairs'.Keys && (forall i :: i in pairs ==> pairs'[i] == pairs[i])
    ensures fresh(pairs'.Values - pairs.Values)
    ensures Parents(origin) == old(Parents(origin))
    ensures Wired(pairs', Parents(pairs'), origin, Parents(origin), tree, pending)
    ensures AllNeeded(tree, pipes, pairs') && AllCopies(pairs', origin)
  {
    hide Wired, Originals, Needed, ById, Rooted, AllCopies, Parents;
    pairs' := pairs;
    var clone: Pipe := start;
    while clone.parent != null && clone.parent !in pairs'.Values
      invariant pairs.Keys <= pairs'.Keys && (forall i :: i in pairs ==> pairs'[i] == pairs[i])
      invariant fresh(pairs'.Values - pairs.Values)
      invariant clone.instanceId in pairs' && pairs'[clone.instanceId] == clone
      invariant Parents(origin) == old(Parents(origin))
      invariant Wired(pairs', Parents(pairs'), origin, Parents(origin), tree, pending + {clone.instanceId})
      invariant AllNeeded(tree, pipes, pairs') && AllCopies(pairs', origin)
      decreases if clone.instanceId in tree.depth then tree.depth[clone.instanceId] else 0
    {
      Shallower(tree, clone.instanceId);
      NeededUp(tree, pipes, clone.instanceId);
      pairs', clone := RewireParent(clone, pairs', origin, tree, pending);
    }
    ParentOf(pairs', clone.instanceId);
    AllWired(pairs', Parents(pairs'), origin, Parents(origin), tree, pending, clone.instanceId);
  }

  lemma ParentOf(pipes: map<PipeId, Pipe>, i: PipeId)
    requires i in pipes
    ensures i in Parents(pipes) && Parents(pipes)[i] == pipes[i].parent
  {
  }

  lemma Shallower(tree: Tree, i: PipeId)
    requires Rooted(tree)
    ensures i in tree.up ==> i in tree.depth && tree.up[i] in tree.depth && tree.depth[tree.up[i]] < tree.depth[i]
  {
  }

  lemma OpenWired(pairs: map<PipeId, Pipe>, parents: map<PipeId, Pipe?>, origin: map<PipeId, Pipe>,
                  originals: map<PipeId, Pipe?>,
                  tree: Tree, pending: set<PipeId>)
    requires Wired(pairs, parents, origin, originals, tree, pending)
    ensures ById(pairs) && pairs.Values !! origin.Values
  {
  }

  /** Clones have the steps of their originals. */
  ghost predicate AllCopies(pairs: map<PipeId, Pipe>, origin: map<PipeId, Pipe>)
    reads pairs.Values, origin.Values
  {
    forall i :: i in pairs ==> i in origin && pairs[i].steps == origin[i].steps
  }

  lemma NeededUp(tree: Tree, pipes: seq<Pipe>, i: PipeId)
    requires Rooted(tree) && Needed(tree, pipes, i)
    ensures i in tree.up ==> Needed(tree, pipes, tree.up[i])
  {
    if i in tree.up {
      var p :| p in pipes && i in Line(tree, p.instanceId);
      LineUp(tree, p.instanceId, i);
    }
  }

  lemma {:induction false} LineUp(tree: Tree, j: PipeId, i: PipeId)
    requires Rooted(tree) && i in Line(tree, j) && i in tree.up
    ensures tree.up[i] in Line(tree, j)
    decreases if j in tree.depth then tree.depth[j] else 0
  {
    if i != j {
      LineUp(tree, tree.up[j], i);
    } else {
      assert Line(tree, tree.up[i])[0] == tree.up[i];
    }
  }

  lemma {:induction false} LineCovered(tree: Tree, j: PipeId, keys: set<PipeId>)
    requires Rooted(tree) && j in keys && forall i :: i in keys && i in tree.up ==> tree.up[i] in keys
    ensures forall i :: i in Line(tree, j) ==> i in keys
    decreases if j in tree.depth then tree.depth[j] else 0
  {
    if j in tree.up {
      LineCovered(tree, tree.up[j], keys);
    }
  }

  /** The ids of the selected pipes from the n-th on. */
  function IdsFrom(pipes: seq<Pipe>, n: nat): (ids: set<PipeId>)
    requires n <= |pipes|
    decreases |pipes| - n
  {
    if n == |pipes| then {} else {pipes[n].instanceId} + IdsFrom(pipes, n + 1)
  }

  /** The clones of the first n pipes are there. */
  predicate ClonesOf(pipes: seq<Pipe>, n: nat, clones: seq<Pipe>, pairs: map<PipeId, Pipe>)
    requires n <= |pipes|
  {
    |clones| == n && forall k :: 0 <= k < n ==> pipes[k].instanceId in pairs && clones[k] == pairs[pipes[k].instanceId]
  }

  lemma {:induction false} PendingAll(pipes: seq<Pipe>, n: nat)
    requires n <= |pipes|
    ensures forall k :: n <= k < |pipes| ==> pipes[k].instanceId in IdsFrom(pipes, n)
    decreases |pipes| - n
  {
    if n < |pipes| {
      PendingAll(pipes, n + 1);
    }
  }

  /** Clones the pipes, not yet their parents. */
  method CloneEach(pipes: seq<Pipe>, ghost origin: map<PipeId, Pipe>, ghost tree: Tree)
    returns (clones: seq<Pipe>, pairs: map<PipeId, Pipe>)
    requires Rooted(tree) && Originals(origin, Parents(origin), tree) && Selectable(pipes, origin)
    ensures fresh(pairs.Values) && ClonesOf(pipes, |pipes|, clones, pairs)
    ensures Wired(pairs, Parents(pairs), origin, Parents(origin), tree, IdsFrom(pipes, 0))
    ensures AllNeeded(tree, pipes, pairs) && AllCopies(pairs, origin)
  {
    hide Originals, Line, Rooted, Wired, Needed, HasParent, Selectable;
    clones, pairs := [], map[];
    PendingAll(pipes, 0);
    for n := 0 to |pipes|
      invariant fresh(pairs.Values) && ById(pairs) && ClonesOf(pipes, n, clones, pairs)
      invariant forall i :: i in pairs ==> i in origin && pairs[i].parent == origin[i].parent && i in IdsFrom(pipes, 0)
      invariant AllNeeded(tree, pipes, pairs) && AllCopies(pairs, origin)
    {
      var pipe := pipes[n];
      SelectedIsOriginal(pipes, origin, n);
      var clone := pipe.Clone();
      NeededItself(tree, pipes, pipe);
      clones := clones + [clone];
      ghost var before := pairs;
      pairs := pairs[pipe.instanceId := clone];
      assert pairs.Values <= before.Values + {clone};
    }
    JustCloned(pairs, Parents(pairs), origin, Parents(origin), tree, IdsFrom(pipes, 0));
  }

  lemma JustCloned(pairs: map<PipeId, Pipe>, parents: map<PipeId, Pipe?>, origin: map<PipeId, Pipe>,
                   originals: map<PipeId, Pipe?>,
                   tree: Tree, pending: set<PipeId>)
    requires ById(pairs) && parents.Keys == pairs.Keys && originals.Keys == origin.Keys && pairs.Values !! origin.Values
    requires forall i :: i in pairs ==> i in origin && i in pending && parents[i] == originals[i]
    ensures Wired(pairs, parents, origin, originals, tree, pending)
  {
  }

  lemma SelectedIsOriginal(pipes: seq<Pipe>, origin: map<PipeId, Pipe>, n: nat)
    requires Selectable(pipes, origin) && n < |pipes|
    ensures pipes[n].instanceId in origin && origin[pipes[n].instanceId] == pipes[n]
    ensures forall k :: 0 <= k < n ==> pipes[k].instanceId != pipes[n].instanceId
  {
    assert pipes[n] in pipes;
  }

  lemma NeededItself(tree: Tree, pipes: seq<Pipe>, p: Pipe)
    requires Rooted(tree) && p in pipes
    ensures Needed(tree, pipes, p.instanceId)
  {
    assert p.instanceId in Line(tree, p.instanceId);
  }

  /** Clones the pipes and all their parents, each once, parents becoming parents. */
  method ClonePipes(pipes: seq<Pipe>, ghost origin: map<PipeId, Pipe>, ghost tree: Tree)
    returns (clones: seq<Pipe>, pairs: map<PipeId, Pipe>)
    requires Rooted(tree) && Originals(origin, Parents(origin), tree) && Selectable(pipes, origin)
    requires forall i :: i in origin ==> origin[i].steps != []
    ensures fresh(pairs.Values) && ClonesOf(pipes, |pipes|, clones, pairs) && ById(pairs)
    ensures forall i :: i in pairs <==> Needed(tree, pipes, i)
    ensures forall i :: i in pairs ==> HasParent(pairs, Parents(pairs), tree, i)
    ensures AllCopies(pairs, origin)
  {
    hide Originals, Needed, Line, Wired, HasParent, ById, Rooted, Selectable, AllCopies;
    clones, pairs := CloneEach(pipes, origin, tree);
    for n := 0 to |clones|
      invariant fresh(pairs.Values) && ClonesOf(pipes, |pipes|, clones, pairs)
      invariant Wired(pairs, Parents(pairs), origin, Parents(origin), tree, IdsFrom(pipes, n))
      invariant AllNeeded(tree, pipes, pairs) && AllCopies(pairs, origin)
    {
      OpenWired(pairs, Parents(pairs), origin, Parents(origin), tree, IdsFrom(pipes, n));
      CloneIds(pipes, clones, pairs, n);
      assert IdsFrom(pipes, n) == IdsFrom(pipes, n + 1) + {clones[n].instanceId};
      pairs := WireUp(clones[n], pairs, origin, tree, pipes, IdsFrom(pipes, n + 1));
    }
    OpenWired(pairs, Parents(pairs), origin, Parents(origin), tree, {});
    WiredAll(pairs, Parents(pairs), origin, Parents(origin), tree);
    forall i | Needed(tree, pipes, i) ensures i in pairs {
      NeededThere(tree, pipes, clones, pairs, Parents(pairs), i);
    }
  }

  lemma CloneIds(pipes: seq<Pipe>, clones: seq<Pipe>, pairs: map<PipeId, Pipe>, n: nat)
    requires ClonesOf(pipes, |pipes|, clones, pairs) && ById(pairs) && n < |pipes|
    ensures clones[n].instanceId == pipes[n].instanceId && clones[n].instanceId in pairs
            && pairs[clones[n].instanceId] == clones[n]
  {
  }

  lemma WiredAll(pairs: map<PipeId, Pipe>, parents: map<PipeId, Pipe?>, origin: map<PipeId, Pipe>,
                 originals: map<PipeId, Pipe?>, tree: Tree)
    requires Wired(pairs, parents, origin, originals, tree, {})
    ensures forall i :: i in pairs ==> HasParent(pairs, parents, tree, i)
  {
  }

  lemma NeededThere(tree: Tree, pipes: seq<Pipe>, clones: seq<Pipe>, pairs: map<PipeId, Pipe>, parents: map<PipeId,
                    Pipe?>, i: PipeId)
    requires Rooted(tree) && Needed(tree, pipes, i) && parents.Keys == pairs.Keys
             && ClonesOf(pipes, |pipes|, clones, pairs)
    requires forall j :: j in pairs ==> HasParent(pairs, parents, tree, j)
    ensures i in pairs
  {
    var p :| p in pipes && i in Line(tree, p.instanceId);
    var k :| 0 <= k < |pipes| && pipes[k] == p;
    forall j | j in pairs && j in tree.up ensures tree.up[j] in pairs {
      assert HasParent(pairs, parents, tree, j);
    }
    LineCovered(tree, p.instanceId, pairs.Keys);
  }

  // ---------------------------------------------------------------------------------------
  // Forking

  ghost function Kids(tree: Tree, done: set<PipeId>, q: PipeId): set<PipeId> {
    set c | c in done && c in tree.up && tree.up[c] == q
  }

  /** The fork of pipe `q` sends an item once to the start of each child and, if `q` is selected
      itself, once to the position of the fork, where the item leaves. */
  ghost predicate TargetsFit(q: PipeId, last: nat, targets: seq<Target>, kids: set<PipeId>, own: bool) {
    && (forall i, j :: 0 <= i < j < |targets| ==> targets[i].pipe != targets[j].pipe)
    && (forall t :: t in targets ==> (t.pipe in kids && t.step == -1) || (own && t == Target(q, last)))
    && (forall c :: c in kids ==> Target(c, -1) in targets)
    && (own ==> Target(q, last) in targets)
  }

  /** A pipe without children keeps its steps; others get a fork behind them. */
  ghost predicate ForkFits(q: PipeId, base: seq<Step>, steps: seq<Step>, kids: set<PipeId>, own: bool) {
    if kids == {} then steps == base
    else
      && |steps| == |base| + 1 && steps[..|base|] == base && steps[|base|].Fork?
      && TargetsFit(q, |base|, steps[|base|].targets, kids, own)
  }

  function WithKid(steps: seq<Step>, q: PipeId, c: PipeId, own: bool): seq<Step>
    requires steps != []
  {
    var forked := Forked(steps, c, -1);
    if own then Forked(forked, q, |forked| - 1) else forked
  }

  lemma TargetAdded(q: PipeId, last: nat, targets: seq<Target>, kids: set<PipeId>, own: bool, c: PipeId)
    requires TargetsFit(q, last, targets, kids, own) && c != q
    ensures HasPipe(targets, c) ==> c in kids
    ensures !HasPipe(targets, c) ==> TargetsFit(q, last, targets + [Target(c, -1)], kids + {c}, own)
    ensures HasPipe(targets, c) ==> TargetsFit(q, last, targets, kids + {c}, own)
    ensures own ==> HasPipe(targets, q)
  {
    if HasPipe(targets, c) {
      var i :| 0 <= i < |targets| && targets[i].pipe == c;
      assert targets[i] in targets;
      assert kids + {c} == kids;
    } else {
      var more := targets + [Target(c, -1)];
      forall t | t in more ensures (t.pipe in kids + {c} && t.step == -1) || (own && t == Target(q, last)) {
      }
      forall k | k in kids + {c} ensures Target(k, -1) in more {
        assert more[|targets|] == Target(c, -1);
      }
    }
  }

  lemma FirstTargets(q: PipeId, last: nat, own: bool, c: PipeId)
    requires c != q
    ensures TargetsFit(q, last, if own then [Target(c, -1), Target(q, last)] else [Target(c, -1)], {c}, own)
    ensures !HasPipe([Target(c, -1)], q)
  {
    var both := [Target(c, -1), Target(q, last)];
    assert both[1] == Target(q, last) && both[0] == Target(c, -1);
  }

  /** Forking a pipe to one more child keeps the fork what it should be. */
  lemma KidAdded(q: PipeId, base: seq<Step>, steps: seq<Step>, kids: set<PipeId>, own: bool, c: PipeId)
    requires base != [] && NoForks(base) && ForkFits(q, base, steps, kids, own) && c != q
    ensures steps != [] && ForkFits(q, base, WithKid(steps, q, c, own), kids + {c}, own)
  {
    hide TargetsFit, HasPipe;
    if kids == {} {
      FirstTargets(q, |base|, own, c);
      assert !steps[|steps| - 1].Fork?;
      var forked := Forked(steps, c, -1);
      assert forked == base + [Fork([Target(c, -1)])] && |forked| - 1 == |base|;
      if own {
        assert Forked(forked, q, |base|) == base + [Fork([Target(c, -1)] + [Target(q, |base|)])];
        assert [Target(c, -1)] + [Target(q, |base|)] == [Target(c, -1), Target(q, |base|)];
      }
      assert kids + {c} == {c};
    } else {
      var targets := steps[|base|].targets;
      TargetAdded(q, |base|, targets, kids, own, c);
      var forked := Forked(steps, c, -1);
      assert forked[..|base|] == base;
      if own {
        TargetsOwn(q, |base|, forked[|base|].targets, kids + {c});
        assert Forked(forked, q, |forked| - 1) == forked;
      }
    }
  }

  lemma TargetsOwn(q: PipeId, last: nat, targets: seq<Target>, kids: set<PipeId>)
    requires TargetsFit(q, last, targets, kids, true)
    ensures HasPipe(targets, q)
  {
    var i :| 0 <= i < |targets| && targets[i] == Target(q, last);
  }

  /** All pipes fork as they should to those children that are done. */
  ghost predicate Forks(steps: map<PipeId, seq<Step>>, base: map<PipeId, seq<Step>>, tree: Tree, done: set<PipeId>,
                        owners: set<PipeId>) {
    && steps.Keys == base.Keys
    && forall q :: q in base ==>
         base[q] != [] && NoForks(base[q]) && ForkFits(q, base[q], steps[q], Kids(tree, done, q), q in owners)
  }

  lemma EdgeAdded(steps: map<PipeId, seq<Step>>, base: map<PipeId, seq<Step>>, tree: Tree, done: set<PipeId>,
                  owners: set<PipeId>, c: PipeId)
    requires Rooted(tree) && Forks(steps, base, tree, done, owners) && c in tree.up && tree.up[c] in base
    ensures steps[tree.up[c]] != []
    ensures Forks(steps[tree.up[c] := WithKid(steps[tree.up[c]], tree.up[c], c, tree.up[c] in owners)], base, tree,
                  done + {c}, owners)
  {
    hide ForkFits, WithKid, NoForks;
    var q := tree.up[c];
    KidAdded(q, base[q], steps[q], Kids(tree, done, q), q in owners, c);
    assert Kids(tree, done + {c}, q) == Kids(tree, done, q) + {c};
    forall p | p in base && p != q ensures Kids(tree, done + {c}, p) == Kids(tree, done, p) {
    }
  }

  lemma RootAdded(steps: map<PipeId, seq<Step>>, base: map<PipeId, seq<Step>>, tree: Tree, done: set<PipeId>,
                  owners: set<PipeId>, c: PipeId)
    requires Forks(steps, base, tree, done, owners) && c !in tree.up
    ensures Forks(steps, base, tree, done + {c}, owners)
  {
    hide ForkFits, NoForks;
    forall p | p in base ensures Kids(tree, done + {c}, p) == Kids(tree, done, p) {
    }
  }

  function AddOnce(ids: seq<PipeId>, i: PipeId): seq<PipeId> {
    if i in ids then ids else ids + [i]
  }

  // ---------------------------------------------------------------------------------------
  // The order of forking

  /** The pipes that the tail of these steps forks to, in order. */
  function TargetPipes(steps: seq<Step>): seq<PipeId> {
    if steps != [] && steps[|steps| - 1].Fork? then
      var targets := steps[|steps| - 1].targets;
      seq(|targets|, i requires 0 <= i < |targets| => targets[i].pipe)
    else []
  }

  function WithBranch(targets: seq<PipeId>, q: PipeId, c: PipeId, own: bool): seq<PipeId> {
    if own then AddOnce(AddOnce(targets, c), q) else AddOnce(targets, c)
  }

  lemma TargetsOfFork(steps: seq<Step>, child: PipeId, childStep: int)
    requires steps != []
    ensures TargetPipes(Forked(steps, child, childStep)) == AddOnce(TargetPipes(steps), child)
  {
    if steps[|steps| - 1].Fork? {
      var targets := steps[|steps| - 1].targets;
      if HasPipe(targets, child) {
        var k :| 0 <= k < |targets| && targets[k].pipe == child;
        assert TargetPipes(steps)[k] == child;
      } else {
        assert child !in TargetPipes(steps);
      }
    }
  }

  lemma TargetsWithKid(steps: seq<Step>, q: PipeId, c: PipeId, own: bool)
    requires steps != []
    ensures TargetPipes(WithKid(steps, q, c, own)) == WithBranch(TargetPipes(steps), q, c, own)
  {
    TargetsOfFork(steps, c, -1);
    var forked := Forked(steps, c, -1);
    TargetsOfFork(forked, q, |forked| - 1);
  }

  /** The child of `q` that is on the line of `i`, if there is one. */
  ghost function Branch(tree: Tree, i: PipeId, q: PipeId): (c: Option<PipeId>)
    requires Rooted(tree)
    ensures c.Some? ==> c.value in Line(tree, i) && c.value in tree.up && tree.up[c.value] == q
    ensures c.None? ==> forall j :: j in Line(tree, i) && j in tree.up ==> tree.up[j] != q
    decreases if i in tree.depth then tree.depth[i] else 0
  {
    if i !in tree.up then None else if tree.up[i] == q then Some(i) else Branch(tree, tree.up[i], q)
  }

  function AfterBranch(targets: seq<PipeId>, q: PipeId, branch: Option<PipeId>, own: bool): seq<PipeId> {
    match branch
    case None => targets
    case Some(c) => WithBranch(targets, q, c, own)
  }

  lemma {:induction false} LineGetsShallower(tree: Tree, i: PipeId, j: PipeId)
    requires Rooted(tree) && j in Line(tree, i) && i in tree.depth
    ensures j in tree.depth && tree.depth[j] <= tree.depth[i]
    decreases tree.depth[i]
  {
    if j != i {
      LineGetsShallower(tree, tree.up[i], j);
    }
  }

  lemma NoBranchBack(tree: Tree, q: PipeId)
    requires Rooted(tree) && q in tree.depth
    ensures Branch(tree, q, q) == None
  {
    hide Line, Branch;
    if Branch(tree, q, q).Some? {
      LineGetsShallower(tree, q, Branch(tree, q, q).value);
    }
  }

  /** There is no other child of `q` on that line. */
  lemma {:induction false} BranchIs(tree: Tree, i: PipeId, c: PipeId)
    requires Rooted(tree) && c in Line(tree, i) && c in tree.up
    ensures Branch(tree, i, tree.up[c]) == Some(c)
    decreases if i in tree.depth then tree.depth[i] else 0
  {
    if i != c {
      if tree.up[i] == tree.up[c] {
        LineGetsShallower(tree, tree.up[i], c);
      } else {
        BranchIs(tree, tree.up[i], c);
      }
    }
  }

  /** Every pipe on the line of `i` has got its child on that line as a target, if it did not have it yet. */
  ghost predicate Branched(steps: map<PipeId, seq<Step>>, after: map<PipeId, seq<Step>>, tree: Tree, i: PipeId,
                           owners: set<PipeId>)
    requires Rooted(tree)
  {
    && after.Keys == steps.Keys
    && forall q :: q in steps ==>
         TargetPipes(after[q]) == AfterBranch(TargetPipes(steps[q]), q, Branch(tree, i, q), q in owners)
  }

  lemma BranchedAtRoot(steps: map<PipeId, seq<Step>>, tree: Tree, i: PipeId, owners: set<PipeId>)
    requires Rooted(tree) && i !in tree.up
    ensures Branched(steps, steps, tree, i, owners)
  {
  }

  lemma BranchedUp(steps: map<PipeId, seq<Step>>, after: map<PipeId, seq<Step>>, tree: Tree, i: PipeId,
                   owners: set<PipeId>)
    requires Rooted(tree) && i in tree.up && tree.up[i] in steps && steps[tree.up[i]] != []
    requires
      var q := tree.up[i];
      Branched(steps[q := WithKid(steps[q], q, i, q in owners)], after, tree, q, owners)
    ensures Branched(steps, after, tree, i, owners)
  {
    hide TargetPipes, WithKid, WithBranch, Line;
    var q := tree.up[i];
    TargetsWithKid(steps[q], q, i, q in owners);
    NoBranchBack(tree, q);
    assert Branch(tree, i, q) == Some(i);
    assert forall p :: p != q ==> Branch(tree, i, p) == Branch(tree, q, p);
  }

  /** The targets of `q` after connecting these pipes, one after the other. */
  ghost function KidsInOrder(tree: Tree, ids: seq<PipeId>, q: PipeId, own: bool): seq<PipeId>
    requires Rooted(tree)
  {
    if ids == [] then []
    else AfterBranch(KidsInOrder(tree, ids[..|ids| - 1], q, own), q, Branch(tree, ids[|ids| - 1], q), own)
  }

  ghost predicate Ordered(steps: map<PipeId, seq<Step>>, tree: Tree, ids: seq<PipeId>, owners: set<PipeId>)
    requires Rooted(tree)
  {
    forall q :: q in steps ==> TargetPipes(steps[q]) == KidsInOrder(tree, ids, q, q in owners)
  }

  lemma NothingOrdered(steps: map<PipeId, seq<Step>>, tree: Tree, owners: set<PipeId>)
    requires Rooted(tree) && forall q :: q in steps ==> steps[q] != [] && NoForks(steps[q])
    ensures Ordered(steps, tree, [], owners)
  {
  }

  lemma OrderedMore(steps: map<PipeId, seq<Step>>, after: map<PipeId, seq<Step>>, tree: Tree, ids: seq<PipeId>,
                    owners: set<PipeId>)
    requires Rooted(tree) && ids != [] && Ordered(steps, tree, ids[..|ids| - 1], owners)
    requires Branched(steps, after, tree, ids[|ids| - 1], owners)
    ensures Ordered(after, tree, ids, owners)
  {
    hide TargetPipes, Branch, AfterBranch, Rooted;
  }

  /** `c` is on the line of one of the ids, and `d` on none of those up to that one. */
  ghost predicate OnLineFirst(tree: Tree, ids: seq<PipeId>, c: PipeId, d: PipeId)
    requires Rooted(tree)
  {
    exists k :: 0 <= k < |ids| && c in Line(tree, ids[k]) && forall j :: 0 <= j <= k ==> d !in Line(tree, ids[j])
  }

  ghost predicate OnSomeLine(tree: Tree, ids: seq<PipeId>, c: PipeId)
    requires Rooted(tree)
  {
    exists k :: 0 <= k < |ids| && c in Line(tree, ids[k])
  }

  ghost predicate KidsAppear(tree: Tree, ids: seq<PipeId>, q: PipeId, own: bool, kids: seq<PipeId>)
    requires Rooted(tree)
  {
    && (forall c :: c in kids && c != q ==> OnSomeLine(tree, ids, c))
    && (forall c :: c in tree.up && tree.up[c] == q && OnSomeLine(tree, ids, c) ==> c in kids)
    && (forall c :: c in kids && c != q ==> c in tree.up && tree.up[c] == q)
    && (forall x, y :: 0 <= x < y < |kids| && kids[x] != q && kids[y] != q ==>
         OnLineFirst(tree, ids, kids[x], kids[y]))
    && (forall x :: 0 <= x < |kids| ==> (kids[x] == q <==> own && x == 1))
    && (own ==> |kids| != 1)
  }

  lemma {:induction false} KidsDoAppear(tree: Tree, ids: seq<PipeId>, q: PipeId, own: bool)
    requires Rooted(tree)
    ensures KidsAppear(tree, ids, q, own, KidsInOrder(tree, ids, q, own))
  {
    hide Rooted, Line, KidsAppear, Branch;
    if ids == [] {
      NoKids(tree, q, own);
    } else {
      KidsDoAppear(tree, ids[..|ids| - 1], q, own);
      OneMoreBranch(tree, ids, q, own, KidsInOrder(tree, ids[..|ids| - 1], q, own));
    }
  }

  lemma NoKids(tree: Tree, q: PipeId, own: bool)
    requires Rooted(tree)
    ensures KidsAppear(tree, [], q, own, [])
  {
  }

  lemma OneMoreLine(tree: Tree, ids: seq<PipeId>, c: PipeId)
    requires Rooted(tree) && ids != []
    ensures OnSomeLine(tree, ids, c) <==> OnSomeLine(tree, ids[..|ids| - 1], c) || c in Line(tree, ids[|ids| - 1])
  {
    hide Rooted, Line;
    var front := ids[..|ids| - 1];
    if k :| 0 <= k < |front| && c in Line(tree, front[k]) {
      assert front[k] == ids[k];
    }
    if c !in Line(tree, ids[|front|]) && OnSomeLine(tree, ids, c) {
      var k :| 0 <= k < |ids| && c in Line(tree, ids[k]);
      assert front[k] == ids[k];
    }
  }

  lemma StillOnLineFirst(tree: Tree, ids: seq<PipeId>, c: PipeId, d: PipeId)
    requires Rooted(tree) && ids != []
    requires OnLineFirst(tree, ids[..|ids| - 1], c, d)
             || (OnSomeLine(tree, ids[..|ids| - 1], c) && !OnSomeLine(tree, ids[..|ids| - 1], d))
    ensures OnLineFirst(tree, ids, c, d)
  {
    hide Rooted, Line;
    var front := ids[..|ids| - 1];
    assert forall j :: 0 <= j < |front| ==> front[j] == ids[j];
    var k :| 0 <= k < |front| && c in Line(tree, front[k]) && forall j :: 0 <= j <= k ==> d !in Line(tree, front[j]);
    assert c in Line(tree, ids[k]);
  }

  lemma OneMoreBranch(tree: Tree, ids: seq<PipeId>, q: PipeId, own: bool, before: seq<PipeId>)
    requires Rooted(tree) && ids != [] && KidsAppear(tree, ids[..|ids| - 1], q, own, before)
    ensures KidsAppear(tree, ids, q, own, AfterBranch(before, q, Branch(tree, ids[|ids| - 1], q), own))
  {
    hide Line, OnSomeLine, OnLineFirst, Branch;
    var front, last := ids[..|ids| - 1], ids[|ids| - 1];
    var branch := Branch(tree, last, q);
    forall c ensures OnSomeLine(tree, ids, c) <==> OnSomeLine(tree, front, c) || c in Line(tree, last) {
      OneMoreLine(tree, ids, c);
    }
    forall c | c in Line(tree, last) && c in tree.up && tree.up[c] == q ensures branch == Some(c) {
      BranchIs(tree, last, c);
    }
    assert branch.Some? ==> branch.value != q;
    hide Rooted;
    BranchComesLast(tree, ids, q, own, before, branch);
  }

  lemma BranchComesLast(tree: Tree, ids: seq<PipeId>, q: PipeId, own: bool, before: seq<PipeId>,
                        branch: Option<PipeId>)
    requires Rooted(tree) && ids != [] && KidsAppear(tree, ids[..|ids| - 1], q, own, before)
    requires branch.Some? ==> branch.value != q && branch.value in tree.up && tree.up[branch.value] == q
    ensures
      var kids := AfterBranch(before, q, branch, own);
      && (forall x, y :: 0 <= x < y < |kids| && kids[x] != q && kids[y] != q ==>
            OnLineFirst(tree, ids, kids[x], kids[y]))
      && (forall x :: 0 <= x < |kids| ==> (kids[x] == q <==> own && x == 1))
      && (own ==> |kids| != 1)
  {
    hide Rooted, Line, OnSomeLine, OnLineFirst;
    var kids := AfterBranch(before, q, branch, own);
    if branch.Some? && own {
      if before == [] {
        assert kids == [branch.value, q];
      } else {
        assert before[1] == q && q in before;
      }
    }
    forall x, y | 0 <= x < y < |kids| && kids[x] != q && kids[y] != q
      ensures OnLineFirst(tree, ids, kids[x], kids[y])
    {
      assert kids[x] == before[x] && before[x] in before;
      if y < |before| {
        assert kids[y] == before[y];
      } else {
        assert kids[y] == branch.value && branch.value !in before;
      }
      StillOnLineFirst(tree, ids, kids[x], kids[y]);
    }
  }

  function Ids(pipes: seq<Pipe>): (ids: seq<PipeId>)
    ensures |ids| == |pipes| && forall i :: 0 <= i < |pipes| ==> ids[i] == pipes[i].instanceId
  {
    seq(|pipes|, i requires 0 <= i < |pipes| => pipes[i].instanceId)
  }

  ghost function LineSet(tree: Tree, i: PipeId): set<PipeId>
    requires Rooted(tree)
  {
    set j | j in Line(tree, i)
  }

  /** Pipes are in the tree as their ids say. */
  ghost predicate Placed(pairs: map<PipeId, Pipe>, parents: map<PipeId, Pipe?>, tree: Tree) {
    && Rooted(tree) && ById(pairs) && parents.Keys == pairs.Keys
    && forall i :: i in pairs ==> i in tree.depth && HasParent(pairs, parents, tree, i)
  }

  lemma OpenPlaced(pairs: map<PipeId, Pipe>, parents: map<PipeId, Pipe?>, tree: Tree, i: PipeId)
    requires Placed(pairs, parents, tree) && i in pairs
    ensures Rooted(tree) && pairs[i].instanceId == i
    ensures if parents[i] == null then i !in tree.up
            else
              && i in tree.up && parents[i].instanceId == tree.up[i] && tree.up[i] in pairs
              && pairs[tree.up[i]] == parents[i]
    ensures i in tree.up ==> i in tree.depth && tree.up[i] in tree.depth && tree.depth[tree.up[i]] < tree.depth[i]
  {
    assert HasParent(pairs, parents, tree, i);
  }

  lemma PlacedById(pairs: map<PipeId, Pipe>, parents: map<PipeId, Pipe?>, tree: Tree)
    requires Placed(pairs, parents, tree)
    ensures forall i :: i in pairs ==> pairs[i].instanceId == i
  {
  }

  lemma LineUnfolds(tree: Tree, i: PipeId)
    requires Rooted(tree)
    ensures i in tree.up ==>
              LineSet(tree, i) == {i} + LineSet(tree, tree.up[i]) && Root(tree, i) == Root(tree, tree.up[i])
    ensures i !in tree.up ==> LineSet(tree, i) == {i} && Root(tree, i) == i
  {
  }

  /** Makes the parents of a pipe fork to it and to each other, and its root a source, once. */
  method ForkPipeline(pipe: Pipe, selected: seq<Pipe>, yieldParents: bool, sources: seq<Pipe>, ghost pairs: map<PipeId,
                      Pipe>,
                      ghost base: map<PipeId, seq<Step>>, ghost tree: Tree, ghost done: set<PipeId>, ghost owners:
                      set<PipeId>)
    returns (sources': seq<Pipe>)
    requires pipe.instanceId in pairs && pairs[pipe.instanceId] == pipe
    requires Placed(pairs, Parents(pairs), tree) && Forks(Steps(pairs), base, tree, done, owners)
    requires forall i :: i in pairs ==> (i in owners <==> yieldParents && pairs[i] in selected)
    requires forall s :: s in sources ==> s.instanceId in pairs && pairs[s.instanceId] == s
    modifies pairs.Values
    ensures Parents(pairs) == old(Parents(pairs)) && Rooted(tree)
    ensures Forks(Steps(pairs), base, tree, done + LineSet(tree, pipe.instanceId), owners)
    ensures Branched(old(Steps(pairs)), Steps(pairs), tree, pipe.instanceId, owners)
    ensures forall s :: s in sources' ==> s.instanceId in pairs && pairs[s.instanceId] == s
    ensures Ids(sources') == AddOnce(Ids(sources), Root(tree, pipe.instanceId))
    decreases if pipe.instanceId in tree.depth then tree.depth[pipe.instanceId] else 0
  {
    hide Placed, Forks, LineSet, Root, WithKid, Rooted, Branched;
    ghost var i, parents, steps := pipe.instanceId, Parents(pairs), Steps(pairs);
    OpenPlaced(pairs, parents, tree, i);
    LineUnfolds(tree, i);
    ForksBase(steps, base, tree, done, owners);
    if pipe.parent != null {
      var parent := pipe.parent;
      ghost var q := tree.up[i];
      EdgeAdded(steps, base, tree, done, owners, i);
      // the parent sends its items to this pipe as well
      parent.ForkTo(pipe.instanceId, -1);
      // its own fork to its end is how a parent yields
      if yieldParents && parent in selected {
        assert parent.steps != [] by { ForkedNonempty(steps[q], i, -1); }
        parent.ForkTo(parent.instanceId, |parent.steps| - 1);
      }
      WithKidIs(steps[q], q, i, q in owners);
      PlacedById(pairs, parents, tree);
      assert Steps(pairs) == steps[q := WithKid(steps[q], q, i, q in owners)];
      assert Parents(pairs) == parents;
      sources' := ForkPipeline(parent, selected, yieldParents, sources, pairs, base, tree, done + {i}, owners);
      assert done + {i} + LineSet(tree, q) == done + LineSet(tree, i);
      BranchedUp(steps, Steps(pairs), tree, i, owners);
    } else {
      RootAdded(steps, base, tree, done, owners, i);
      BranchedAtRoot(steps, tree, i, owners);
      // several pipes may share this root
      sources' := if pipe in sources then sources else sources + [pipe];
      SourceAdded(sources, pipe, pairs);
    }
  }

  lemma ForksBase(steps: map<PipeId, seq<Step>>, base: map<PipeId, seq<Step>>, tree: Tree, done: set<PipeId>,
                  owners: set<PipeId>)
    requires Forks(steps, base, tree, done, owners)
    ensures steps.Keys == base.Keys && forall q :: q in base ==> steps[q] != []
  {
    hide NoForks, TargetsFit;
  }

  lemma ForkedNonempty(steps: seq<Step>, child: PipeId, childStep: int)
    requires steps != []
    ensures Forked(steps, child, childStep) != []
  {
  }

  lemma WithKidIs(steps: seq<Step>, q: PipeId, c: PipeId, own: bool)
    requires steps != []
    ensures
      var forked := Forked(steps, c, -1);
      forked != [] && WithKid(steps, q, c, own) == if own then Forked(forked, q, |forked| - 1) else forked
  {
  }

  lemma SourceAdded(sources: seq<Pipe>, pipe: Pipe, pairs: map<PipeId, Pipe>)
    requires pipe.instanceId in pairs && pairs[pipe.instanceId] == pipe
    requires forall s :: s in sources ==> s.instanceId in pairs && pairs[s.instanceId] == s
    ensures Ids(if pipe in sources then sources else sources + [pipe]) == AddOnce(Ids(sources), pipe.instanceId)
  {
    if pipe in sources {
      var k :| 0 <= k < |sources| && sources[k] == pipe;
      assert Ids(sources)[k] == pipe.instanceId;
    } else {
      forall k | 0 <= k < |sources| ensures Ids(sources)[k] != pipe.instanceId {
        assert sources[k] in sources;
      }
      assert Ids(sources + [pipe]) == Ids(sources) + [pipe.instanceId];
    }
  }

  // ---------------------------------------------------------------------------------------
  // The iterator's pipes

  /** The roots of the given pipes, each once, in order of first appearance. */
  ghost function RootsOf(tree: Tree, ids: seq<PipeId>): seq<PipeId>
    requires Rooted(tree)
  {
    if ids == [] then [] else AddOnce(RootsOf(tree, ids[..|ids| - 1]), Root(tree, ids[|ids| - 1]))
  }

  function Reversed<T>(s: seq<T>): (r: seq<T>)
    ensures |r| == |s| && forall i :: 0 <= i < |s| ==> r[i] == s[|s| - 1 - i]
  {
    seq(|s|, i requires 0 <= i < |s| => s[|s| - 1 - i])
  }

  ghost function Lines(tree: Tree, ids: seq<PipeId>): set<PipeId>
    requires Rooted(tree)
  {
    if ids == [] then {} else Lines(tree, ids[..|ids| - 1]) + LineSet(tree, ids[|ids| - 1])
  }

  ghost function BaseSteps(origin: map<PipeId, Pipe>, ids: set<PipeId>): map<PipeId, seq<Step>>
    reads origin.Values
  {
    map i | i in ids && i in origin :: origin[i].steps
  }

  lemma NoneForked(steps: map<PipeId, seq<Step>>, tree: Tree, owners: set<PipeId>)
    requires forall q :: q in steps ==> steps[q] != [] && NoForks(steps[q])
    ensures Forks(steps, steps, tree, {}, owners)
  {
    hide NoForks;
    forall q | q in steps ensures Kids(tree, {}, q) == {} {
    }
  }

  predicate AreClones(clones: seq<Pipe>, pairs: map<PipeId, Pipe>) {
    forall c :: c in clones ==> c.instanceId in pairs && pairs[c.instanceId] == c
  }

  method ForkAll(clones: seq<Pipe>, yieldParents: bool, ghost pairs: map<PipeId, Pipe>, ghost base: map<PipeId,
                 seq<Step>>,
                 ghost tree: Tree, ghost owners: set<PipeId>)
    returns (sources: seq<Pipe>)
    requires AreClones(clones, pairs) && Rooted(tree) && Placed(pairs, Parents(pairs), tree)
    requires Forks(Steps(pairs), base, tree, {}, owners)
    requires forall i :: i in pairs ==> (i in owners <==> yieldParents && pairs[i] in clones)
    modifies pairs.Values
    ensures Parents(pairs) == old(Parents(pairs))
    ensures Forks(Steps(pairs), base, tree, Lines(tree, Ids(clones)), owners)
    ensures Ordered(Steps(pairs), tree, Ids(clones), owners)
    ensures AreClones(sources, pairs) && Ids(sources) == RootsOf(tree, Ids(clones))
  {
    hide Placed, Forks, LineSet, Root, Rooted, Parents, Steps, Ordered, Branched;
    sources := [];
    NothingForked(Steps(pairs), base, tree, owners);
    for n := 0 to |clones|
      invariant Parents(pairs) == old(Parents(pairs)) && AreClones(sources, pairs)
      invariant Forks(Steps(pairs), base, tree, Lines(tree, Ids(clones[..n])), owners)
      invariant Ordered(Steps(pairs), tree, Ids(clones[..n]), owners)
      invariant Ids(sources) == RootsOf(tree, Ids(clones[..n]))
    {
      var clone := clones[n];
      ghost var before := Steps(pairs);
      assert clone in clones;
      sources := ForkPipeline(clone, clones, yieldParents, sources, pairs, base, tree, Lines(tree, Ids(clones[..n])),
                              owners);
      assert Ids(clones[..n + 1])[..n] == Ids(clones[..n]) && Ids(clones[..n + 1])[n] == clone.instanceId;
      OrderedMore(before, Steps(pairs), tree, Ids(clones[..n + 1]), owners);
    }
    assert clones[..|clones|] == clones;
  }

  lemma NothingForked(steps: map<PipeId, seq<Step>>, base: map<PipeId, seq<Step>>, tree: Tree, owners: set<PipeId>)
    requires Rooted(tree) && Forks(steps, base, tree, {}, owners)
    ensures Ordered(steps, tree, [], owners)
  {
    hide NoForks, TargetsFit;
    forall q | q in base ensures TargetPipes(steps[q]) == [] {
      assert Kids(tree, {}, q) == {};
      assert NoForks(base[q]) && steps[q] == base[q];
      LastIsNoFork(base[q]);
    }
  }

  lemma LastIsNoFork(steps: seq<Step>)
    requires NoForks(steps)
    ensures TargetPipes(steps) == []
  {
  }

  lemma {:induction false} InLines(tree: Tree, ids: seq<PipeId>, i: PipeId)
    requires Rooted(tree)
    ensures i in Lines(tree, ids) <==> exists k :: 0 <= k < |ids| && i in Line(tree, ids[k])
  {
    hide Rooted, Line;
    if ids != [] {
      InLines(tree, ids[..|ids| - 1], i);
    }
  }

  lemma LinesAreNeeded(tree: Tree, pipes: seq<Pipe>, i: PipeId)
    requires Rooted(tree)
    ensures i in Lines(tree, Reversed(Ids(pipes))) <==> Needed(tree, pipes, i)
  {
    hide Rooted, Line, Lines;
    var ids := Reversed(Ids(pipes));
    InLines(tree, ids, i);
    if Needed(tree, pipes, i) {
      var k :| 0 <= k < |pipes| && i in Line(tree, pipes[k].instanceId);
      assert ids[|pipes| - 1 - k] == pipes[k].instanceId;
    }
    if exists k :: 0 <= k < |ids| && i in Line(tree, ids[k]) {
      var k :| 0 <= k < |ids| && i in Line(tree, ids[k]);
      assert pipes[|pipes| - 1 - k] in pipes;
    }
  }

  lemma Owners(pipes: seq<Pipe>, clones: seq<Pipe>, pairs: map<PipeId, Pipe>, i: PipeId)
    requires ById(pairs) && ClonesOf(pipes, |pipes|, clones, pairs) && i in pairs
    ensures i in Ids(pipes) <==> pairs[i] in Reversed(clones)
    ensures AreClones(Reversed(clones), pairs) && Ids(Reversed(clones)) == Reversed(Ids(pipes))
  {
    if i in Ids(pipes) {
      var k :| 0 <= k < |pipes| && Ids(pipes)[k] == i;
      assert Reversed(clones)[|pipes| - 1 - k] == pairs[i];
    }
    if pairs[i] in Reversed(clones) {
      var k :| 0 <= k < |pipes| && Reversed(clones)[k] == pairs[i];
      assert Ids(pipes)[|pipes| - 1 - k] == i;
    }
  }

  lemma CopiesOfBase(pairs: map<PipeId, Pipe>, origin: map<PipeId, Pipe>)
    requires AllCopies(pairs, origin) && forall i :: i in origin ==> origin[i].steps != [] && NoForks(origin[i].steps)
    ensures Steps(pairs) == BaseSteps(origin, pairs.Keys)
    ensures forall i :: i in Steps(pairs) ==> Steps(pairs)[i] != [] && NoForks(Steps(pairs)[i])
  {
    hide NoForks;
  }

  lemma CopiesHaveParents(pairs: map<PipeId, Pipe>, origin: map<PipeId, Pipe>)
    requires AllCopies(pairs, origin)
    ensures Parents(pairs).Keys == pairs.Keys <= origin.Keys
  {
  }

  lemma PlaceClones(pairs: map<PipeId, Pipe>, parents: map<PipeId, Pipe?>, origin: map<PipeId, Pipe>,
                    originals: map<PipeId, Pipe?>, tree: Tree)
    requires Originals(origin, originals, tree) && ById(pairs) && parents.Keys == pairs.Keys <= origin.Keys
    requires forall i :: i in pairs ==> HasParent(pairs, parents, tree, i)
    ensures Placed(pairs, parents, tree)
  {
  }

  /** Clones the selected pipes with their parents and connects them: every parent forks once to each
      child and, if it is selected and parents are to be yielded, to its own end; and every root is a
      source once, in order of the last pipes first. */
  method FromPipes(pipes: seq<Pipe>, yieldParents: bool, ghost origin: map<PipeId, Pipe>, ghost tree: Tree)
    returns (sources: seq<Pipe>, pairs: map<PipeId, Pipe>, ghost owners: set<PipeId>)
    requires Rooted(tree) && Originals(origin, Parents(origin), tree) && Selectable(pipes, origin)
    requires forall i :: i in origin ==> origin[i].steps != [] && NoForks(origin[i].steps)
    ensures fresh(pairs.Values) && (forall i :: i in pairs <==> Needed(tree, pipes, i))
    ensures Placed(pairs, Parents(pairs), tree)
    ensures owners == if yieldParents then set i | i in Ids(pipes) else {}
    ensures Forks(Steps(pairs), BaseSteps(origin, pairs.Keys), tree, pairs.Keys, owners)
    ensures AreClones(sources, pairs) && Ids(sources) == RootsOf(tree, Reversed(Ids(pipes)))
    ensures LatestFirst(tree, pipes, Ids(sources)) && AllSources(tree, pipes, Ids(sources))
    ensures ForkedInOrder(tree, pipes, Steps(pairs))
  {
    hide Placed, Forks, Rooted, Originals, Needed, HasParent, NoForks, Lines, RootsOf, ClonesOf, AreClones, ById,
         Selectable, AllCopies, BaseSteps, Parents, LatestFirst, AllSources, Ordered, ForkedInOrder;
    RootsLatestFirst(tree, pipes);
    SourcesAlone(tree, pipes, origin);
    var clones;
    clones, pairs := ClonePipes(pipes, origin, tree);
    owners := if yieldParents then set i | i in Ids(pipes) else {};
    CopiesHaveParents(pairs, origin);
    PlaceClones(pairs, Parents(pairs), origin, Parents(origin), tree);
    ghost var base := Steps(pairs);
    CopiesOfBase(pairs, origin);
    NoneForked(base, tree, owners);
    clones := ReversedOf(clones, pipes, pairs);
    sources := ForkAll(clones, yieldParents, pairs, base, tree, owners);
    forall i ensures i in Lines(tree, Reversed(Ids(pipes))) <==> i in pairs {
      LinesAreNeeded(tree, pipes, i);
    }
    assert Lines(tree, Reversed(Ids(pipes))) == pairs.Keys;
    OrderedMeans(tree, pipes, Steps(pairs), owners);
  }

  method ReversedOf(clones: seq<Pipe>, ghost pipes: seq<Pipe>, ghost pairs: map<PipeId, Pipe>) returns (r: seq<Pipe>)
    requires ById(pairs) && ClonesOf(pipes, |pipes|, clones, pairs)
    ensures r == Reversed(clones) && AreClones(r, pairs) && Ids(r) == Reversed(Ids(pipes))
    ensures forall i :: i in pairs ==> (i in Ids(pipes) <==> pairs[i] in r)
  {
    r := Reversed(clones);
    forall i | i in pairs ensures i in Ids(pipes) <==> pairs[i] in r {
      Owners(pipes, clones, pairs, i);
    }
    assert AreClones(r, pairs);
    assert Ids(r) == Reversed(Ids(pipes));
  }

  /** Of two children that a pipe forks to, some pipe below the first one comes behind all pipes below the
      second; and the fork to its own end, if there is one, comes second. */
  ghost predicate TargetsInOrder(tree: Tree, pipes: seq<Pipe>, q: PipeId, targets: seq<Target>)
    requires Rooted(tree)
  {
    && (forall x :: 0 <= x < |targets| && targets[x].pipe == q ==> x == 1)
    && forall x, y :: 0 <= x < y < |targets| && targets[x].pipe != q && targets[y].pipe != q ==>
         BelowBehind(tree, pipes, targets[x].pipe, targets[y].pipe)
  }

  ghost predicate BelowBehind(tree: Tree, pipes: seq<Pipe>, c: PipeId, d: PipeId)
    requires Rooted(tree)
  {
    exists b :: 0 <= b < |pipes| && c in Line(tree, pipes[b].instanceId)
      && forall a :: b <= a < |pipes| ==> d !in Line(tree, pipes[a].instanceId)
  }

  ghost predicate ForkedInOrder(tree: Tree, pipes: seq<Pipe>, steps: map<PipeId, seq<Step>>)
    requires Rooted(tree)
  {
    forall q :: q in steps && steps[q] != [] && steps[q][|steps[q]| - 1].Fork? ==>
      TargetsInOrder(tree, pipes, q, steps[q][|steps[q]| - 1].targets)
  }

  lemma OrderedMeans(tree: Tree, pipes: seq<Pipe>, steps: map<PipeId, seq<Step>>, owners: set<PipeId>)
    requires Rooted(tree) && Ordered(steps, tree, Reversed(Ids(pipes)), owners)
    ensures ForkedInOrder(tree, pipes, steps)
  {
    hide Line, Rooted, KidsInOrder, KidsAppear, BelowBehind, Reversed, Ids, OnLineFirst, OnSomeLine;
    var ids := Reversed(Ids(pipes));
    forall q | q in steps && steps[q] != [] && steps[q][|steps[q]| - 1].Fork?
      ensures TargetsInOrder(tree, pipes, q, steps[q][|steps[q]| - 1].targets)
    {
      var kids, targets := KidsInOrder(tree, ids, q, q in owners), steps[q][|steps[q]| - 1].targets;
      KidsDoAppear(tree, ids, q, q in owners);
      assert |kids| == |targets| && forall x :: 0 <= x < |targets| ==> targets[x].pipe == kids[x];
      KidsFromBehind(tree, pipes, q, q in owners, kids);
    }
  }

  lemma KidsFromBehind(tree: Tree, pipes: seq<Pipe>, q: PipeId, own: bool, kids: seq<PipeId>)
    requires Rooted(tree) && KidsAppear(tree, Reversed(Ids(pipes)), q, own, kids)
    ensures forall x :: 0 <= x < |kids| && kids[x] == q ==> x == 1
    ensures forall x, y :: 0 <= x < y < |kids| && kids[x] != q && kids[y] != q ==>
      BelowBehind(tree, pipes, kids[x], kids[y])
  {
    hide Line, Rooted, BelowBehind, Reversed, Ids, OnLineFirst, OnSomeLine;
    forall x, y | 0 <= x < y < |kids| && kids[x] != q && kids[y] != q
      ensures BelowBehind(tree, pipes, kids[x], kids[y])
    {
      LineFromBehind(tree, pipes, kids[x], kids[y]);
    }
  }

  lemma LineFromBehind(tree: Tree, pipes: seq<Pipe>, c: PipeId, d: PipeId)
    requires Rooted(tree) && OnLineFirst(tree, Reversed(Ids(pipes)), c, d)
    ensures BelowBehind(tree, pipes, c, d)
  {
    hide Line, Rooted;
    var ids, n := Reversed(Ids(pipes)), |pipes|;
    var k :| 0 <= k < n && c in Line(tree, ids[k]) && forall j :: 0 <= j <= k ==> d !in Line(tree, ids[j]);
    assert ids[k] == pipes[n - 1 - k].instanceId;
    forall a | n - 1 - k <= a < n ensures d !in Line(tree, pipes[a].instanceId) {
      assert ids[n - 1 - a] == pipes[a].instanceId;
    }
  }

  /** The roots of the pipes, each once, those of later pipes first: of two of them, the first one has
      a pipe that comes behind all pipes of the other. */
  ghost predicate LatestFirst(tree: Tree, pipes: seq<Pipe>, roots: seq<PipeId>)
    requires Rooted(tree)
  {
    && (forall x, y :: 0 <= x < y < |roots| ==> roots[x] != roots[y])
    && (forall r :: r in roots <==> exists a :: 0 <= a < |pipes| && Root(tree, pipes[a].instanceId) == r)
    && forall x, y :: 0 <= x < y < |roots| ==> BehindAll(tree, pipes, roots[x], roots[y])
  }

  /** Some pipe of the root `r` comes behind all pipes of the root `s`. */
  ghost predicate BehindAll(tree: Tree, pipes: seq<Pipe>, r: PipeId, s: PipeId)
    requires Rooted(tree)
  {
    exists b :: 0 <= b < |pipes| && Root(tree, pipes[b].instanceId) == r
      && forall a :: b <= a < |pipes| ==> Root(tree, pipes[a].instanceId) != s
  }

  ghost predicate HasRoot(tree: Tree, ids: seq<PipeId>, r: PipeId)
    requires Rooted(tree)
  {
    exists k :: 0 <= k < |ids| && Root(tree, ids[k]) == r
  }

  /** The root `r` appears among the ids before the root `s` does. */
  ghost predicate AppearsFirst(tree: Tree, ids: seq<PipeId>, r: PipeId, s: PipeId)
    requires Rooted(tree)
  {
    exists k :: 0 <= k < |ids| && Root(tree, ids[k]) == r && forall j :: 0 <= j <= k ==> Root(tree, ids[j]) != s
  }

  ghost predicate InAppearance(tree: Tree, ids: seq<PipeId>, roots: seq<PipeId>)
    requires Rooted(tree)
  {
    forall x, y :: 0 <= x < y < |roots| ==> roots[x] != roots[y] && AppearsFirst(tree, ids, roots[x], roots[y])
  }

  lemma {:induction false} RootsAppear(tree: Tree, ids: seq<PipeId>)
    requires Rooted(tree)
    ensures InAppearance(tree, ids, RootsOf(tree, ids))
    ensures forall r :: r in RootsOf(tree, ids) <==> HasRoot(tree, ids, r)
  {
    hide Root, Rooted, AppearsFirst, HasRoot;
    if ids == [] {
      NoRoots(tree);
    } else {
      var front, last := ids[..|ids| - 1], Root(tree, ids[|ids| - 1]);
      RootsAppear(tree, front);
      var before, roots := RootsOf(tree, front), RootsOf(tree, ids);
      forall r ensures HasRoot(tree, ids, r) <==> HasRoot(tree, front, r) || r == last {
        OneMoreRoot(tree, ids, r);
      }
      forall x, y | 0 <= x < y < |roots| ensures roots[x] != roots[y] && AppearsFirst(tree, ids, roots[x], roots[y]) {
        assert roots[x] == before[x] && roots[x] in before;
        if y < |before| {
          assert roots[y] == before[y];
          StillFirst(tree, ids, roots[x], roots[y]);
        } else {
          FirstOfNew(tree, ids, roots[x], roots[y]);
        }
      }
    }
  }

  lemma NoRoots(tree: Tree)
    requires Rooted(tree)
    ensures forall r :: !HasRoot(tree, [], r)
  {
  }

  lemma OneMoreRoot(tree: Tree, ids: seq<PipeId>, r: PipeId)
    requires Rooted(tree) && ids != []
    ensures HasRoot(tree, ids, r) <==> HasRoot(tree, ids[..|ids| - 1], r) || Root(tree, ids[|ids| - 1]) == r
  {
    hide Root, Rooted;
    var front := ids[..|ids| - 1];
    if k :| 0 <= k < |front| && Root(tree, front[k]) == r {
      assert Root(tree, ids[k]) == r;
    }
    if Root(tree, ids[|front|]) != r && HasRoot(tree, ids, r) {
      var k :| 0 <= k < |ids| && Root(tree, ids[k]) == r;
      assert front[k] == ids[k];
    }
  }

  lemma StillFirst(tree: Tree, ids: seq<PipeId>, r: PipeId, s: PipeId)
    requires Rooted(tree) && ids != [] && AppearsFirst(tree, ids[..|ids| - 1], r, s)
    ensures AppearsFirst(tree, ids, r, s)
  {
    hide Root, Rooted;
    var front := ids[..|ids| - 1];
    var k :| 0 <= k < |front| && Root(tree, front[k]) == r && forall j :: 0 <= j <= k ==> Root(tree, front[j]) != s;
    assert forall j :: 0 <= j <= k ==> ids[j] == front[j];
  }

  lemma FirstOfNew(tree: Tree, ids: seq<PipeId>, r: PipeId, s: PipeId)
    requires Rooted(tree) && ids != []
    requires HasRoot(tree, ids[..|ids| - 1], r) && !HasRoot(tree, ids[..|ids| - 1], s)
    ensures AppearsFirst(tree, ids, r, s)
  {
    hide Root, Rooted;
    var front := ids[..|ids| - 1];
    var k :| 0 <= k < |front| && Root(tree, front[k]) == r;
    assert forall j :: 0 <= j <= k ==> ids[j] == front[j];
  }

  lemma RootsLatestFirst(tree: Tree, pipes: seq<Pipe>)
    requires Rooted(tree)
    ensures LatestFirst(tree, pipes, RootsOf(tree, Reversed(Ids(pipes))))
  {
    hide Root, Rooted, RootsOf, AppearsFirst, HasRoot, BehindAll, Reversed, Ids;
    var ids := Reversed(Ids(pipes));
    var roots := RootsOf(tree, ids);
    RootsAppear(tree, ids);
    forall r ensures HasRoot(tree, ids, r) <==> exists a :: 0 <= a < |pipes| && Root(tree, pipes[a].instanceId) == r {
      RootFromBehind(tree, pipes, r);
    }
    forall x, y | 0 <= x < y < |roots| ensures BehindAll(tree, pipes, roots[x], roots[y]) {
      FirstFromBehind(tree, pipes, roots[x], roots[y]);
    }
  }

  lemma RootFromBehind(tree: Tree, pipes: seq<Pipe>, r: PipeId)
    requires Rooted(tree)
    ensures HasRoot(tree, Reversed(Ids(pipes)), r)
            <==> exists a :: 0 <= a < |pipes| && Root(tree, pipes[a].instanceId) == r
  {
    hide Root, Rooted;
    var ids, n := Reversed(Ids(pipes)), |pipes|;
    if k :| 0 <= k < n && Root(tree, ids[k]) == r {
      assert ids[k] == pipes[n - 1 - k].instanceId;
    }
    if a :| 0 <= a < n && Root(tree, pipes[a].instanceId) == r {
      assert ids[n - 1 - a] == pipes[a].instanceId;
    }
  }

  lemma FirstFromBehind(tree: Tree, pipes: seq<Pipe>, r: PipeId, s: PipeId)
    requires Rooted(tree) && AppearsFirst(tree, Reversed(Ids(pipes)), r, s)
    ensures BehindAll(tree, pipes, r, s)
  {
    hide Root, Rooted;
    var ids, n := Reversed(Ids(pipes)), |pipes|;
    var k :| 0 <= k < n && Root(tree, ids[k]) == r && forall j :: 0 <= j <= k ==> Root(tree, ids[j]) != s;
    assert ids[k] == pipes[n - 1 - k].instanceId;
    forall a | n - 1 - k <= a < n ensures Root(tree, pipes[a].instanceId) != s {
      assert ids[n - 1 - a] == pipes[a].instanceId;
    }
  }

  lemma {:induction false} RootsAlone(tree: Tree, ids: seq<PipeId>)
    requires Rooted(tree) && (forall i :: i in ids ==> i !in tree.up)
    requires forall i, j :: 0 <= i < j < |ids| ==> ids[i] != ids[j]
    ensures RootsOf(tree, ids) == ids
  {
    hide Rooted;
    if ids != [] {
      var n := |ids| - 1;
      assert ids[n] in ids && forall i :: i in ids[..n] ==> i in ids;
      RootsAlone(tree, ids[..n]);
      LineUnfolds(tree, ids[n]);
    }
  }

  /** Pipes without parents are all sources, the last one first. */
  ghost predicate AllSources(tree: Tree, pipes: seq<Pipe>, sources: seq<PipeId>) {
    (forall p :: p in pipes ==> p.instanceId !in tree.up) ==>
      |sources| == |pipes| && forall k :: 0 <= k < |pipes| ==> sources[k] == pipes[|pipes| - 1 - k].instanceId
  }

  lemma SourcesAlone(tree: Tree, pipes: seq<Pipe>, origin: map<PipeId, Pipe>)
    requires Rooted(tree) && Selectable(pipes, origin)
    ensures AllSources(tree, pipes, RootsOf(tree, Reversed(Ids(pipes))))
  {
    hide Rooted, RootsOf;
    var ids := Reversed(Ids(pipes));
    if forall p :: p in pipes ==> p.instanceId !in tree.up {
      forall i | i in ids ensures i !in tree.up {
        var k :| 0 <= k < |ids| && ids[k] == i;
        assert pipes[|pipes| - 1 - k] in pipes;
      }
      forall i, j | 0 <= i < j < |ids| ensures ids[i] != ids[j] {
        assert |pipes| - 1 - j < |pipes| - 1 - i;
      }
      RootsAlone(tree, ids);
    }
  }

  // ---------------------------------------------------------------------------------------
  // What the forest is for

  /** Every root is a source exactly once, and nothing else is. */
  lemma {:induction false} SourcesAreRoots(tree: Tree, ids: seq<PipeId>)
    requires Rooted(tree)
    ensures
      var roots := RootsOf(tree, ids);
      && (forall i, j :: 0 <= i < j < |roots| ==> roots[i] != roots[j])
      && (forall r :: r in roots <==> r !in tree.up && r in Lines(tree, ids))
  {
    if ids != [] {
      var front, last := ids[..|ids| - 1], ids[|ids| - 1];
      SourcesAreRoots(tree, front);
      RootOfLine(tree, last);
    }
  }

  lemma {:induction false} RootOfLine(tree: Tree, i: PipeId)
    requires Rooted(tree)
    ensures forall r :: r == Root(tree, i) <==> r in LineSet(tree, i) && r !in tree.up
    decreases if i in tree.depth then tree.depth[i] else 0
  {
    hide Root, LineSet;
    LineUnfolds(tree, i);
    if i in tree.up {
      RootOfLine(tree, tree.up[i]);
    }
  }

  /** The connected pipes as the network that the iterator sends items through. */
  function NetworkOf(steps: map<PipeId, seq<Step>>, tree: Tree, bound: nat): Network
    requires forall i :: i in steps ==> i in tree.depth && tree.depth[i] <= bound
  {
    Network(steps, map i | i in steps :: bound - tree.depth[i])
  }

  lemma ForkIsLast(p: PipeId, base: seq<Step>, steps: seq<Step>, kids: set<PipeId>, own: bool)
    requires NoForks(base) && ForkFits(p, base, steps, kids, own)
    ensures forall i :: 0 <= i < |steps| && steps[i].Fork? ==> i == |base| == |steps| - 1
  {
    hide TargetsFit;
    forall i | 0 <= i < |base| ensures !steps[i].Fork? {
      assert steps[i] == if kids == {} then base[i] else steps[..|base|][i];
    }
  }

  lemma ForestIsRouted(steps: map<PipeId, seq<Step>>, base: map<PipeId, seq<Step>>, tree: Tree, owners: set<PipeId>,
                       bound: nat)
    requires Rooted(tree) && Forks(steps, base, tree, steps.Keys, owners)
    requires forall i :: i in steps ==> i in tree.depth && tree.depth[i] <= bound
    ensures Routed(NetworkOf(steps, tree, bound))
  {
    var net := NetworkOf(steps, tree, bound);
    forall p, i | p in net.pipes && 0 <= i < |net.pipes[p]| && net.pipes[p][i].Fork?
      ensures i == |net.pipes[p]| - 1 && forall t :: t in net.pipes[p][i].targets ==> Downstream(net, p, t)
    {
      var kids := Kids(tree, steps.Keys, p);
      assert ForkFits(p, base[p], steps[p], kids, p in owners);
      ForkIsLast(p, base[p], steps[p], kids, p in owners);
      forall t | t in net.pipes[p][i].targets ensures Downstream(net, p, t) {
        if t.pipe in kids {
          assert base[t.pipe] != [] && ForkFits(t.pipe, base[t.pipe], steps[t.pipe], Kids(tree, steps.Keys, t.pipe),
                                                t.pipe in owners);
        }
      }
    }
  }
}
