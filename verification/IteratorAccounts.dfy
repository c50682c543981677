/**
  The accounts of the extract iterator: what its sources, the pool and the item in hand still
  owe, how much work that is, and what every single step does to both.
*/
module IteratorAccounts {
  import opened Options
  import opened PipeFlow
  import opened Handshake
  import opened Concurrency
  import opened Sums

  /** A source is a generator being iterated: a plain one, a parallelized one whose cells live in
      the pool, or the generator of a fork step working through its targets. */
  datatype Stream =
    | Listed(rest: seq<Yield>)
    | Wrapped(cell: nat)
    | Forking(data: Data, targets: seq<Target>)

  /** `id` is the identity of the source object; later sources have larger ones. */
  datatype Source = Source(id: nat, stream: Stream, step: int, pipe: PipeId, meta: Meta)

  ghost function Yields(net: Network, s: Source): seq<PipeItem>
    requires Routed(net)
  {
    match s.stream
    case Listed(rest) => FlattenAll(net, rest, s.step, s.pipe, s.meta)
    case Wrapped(_) => []
    case Forking(data, targets) => FlattenFork(net, data, s.meta, s.pipe, targets)
  }

  ghost function SourceBag(net: Network): Source -> multiset<PipeItem>
    requires Routed(net)
  {
    (s: Source) => multiset(Yields(net, s))
  }

  ghost function SourceEffort(net: Network): Source -> nat
    requires Routed(net)
  {
    (s: Source) =>
      match s.stream
      case Listed(rest) => 1 + EffortAll(net, rest, s.step, s.pipe, s.meta)
      case Wrapped(_) => 1
      case Forking(data, targets) => EffortFork(net, data, s.meta, s.pipe, targets)
  }

  /** Everything that sources and pool together still owe. */
  ghost function Owed(net: Network, sources: seq<Source>, p: PoolState): multiset<PipeItem>
    requires Routed(net)
  {
    Bag(sources, SourceBag(net)) + PoolBag(net, p)
  }

  ghost function Pending(net: Network, sources: seq<Source>, p: PoolState): nat
    requires Routed(net)
  {
    Total(sources, SourceEffort(net)) + PoolEffort(net, p)
  }

  ghost function HeldBag(net: Network, held: Option<InFlight>): multiset<PipeItem>
    requires Routed(net)
  {
    if held.None? then multiset{} else InFlightBag(net, held.value)
  }

  ghost function HeldEffort(net: Network, held: Option<InFlight>): nat
    requires Routed(net)
  {
    if held.None? then 0 else InFlightEffort(net, held.value)
  }

  /** The generator whose call is in hand, or -1. */
  function Hand(held: Option<InFlight>): int {
    if held.Some? && held.value.payload.CallInto? then held.value.payload.cell else -1
  }

  // ---------------------------------------------------------------------------------------
  // Invariants

  ghost predicate SourceFits(net: Network, s: Source, p: PoolState) {
    && Located(net, s.step, s.pipe)
    && match s.stream
       case Listed(_) => true
       case Wrapped(k) => Belongs(p, k, s.step, s.pipe, s.meta)
       case Forking(_, targets) => forall t :: t in targets ==> Downstream(net, s.pipe, t)
  }

  ghost predicate Belongs(p: PoolState, k: nat, step: int, pipe: PipeId, meta: Meta) {
    k < |p.closures| && p.closures[k].step == step && p.closures[k].pipe == pipe && p.closures[k].meta == meta
  }

  ghost predicate HeldFits(net: Network, held: Option<InFlight>, p: PoolState) {
    held.Some? ==>
      var x := held.value;
      && Located(net, x.step, x.pipe)
      && match x.payload
         case Bare(_) => true
         case Forked(_, targets) => forall t :: t in targets ==> Downstream(net, x.pipe, t)
         case CallInto(k) => Belongs(p, k, x.step, x.pipe, x.meta)
  }

  /** A generator with elements left is still a source. */
  ghost predicate Served(sources: seq<Source>, p: PoolState) {
    forall k :: 0 <= k < |p.closures| && p.closures[k].cells.rest != [] ==> HasSource(sources, k)
  }

  ghost predicate HasSource(sources: seq<Source>, k: nat) {
    exists i :: 0 <= i < |sources| && sources[i].stream == Wrapped(k)
  }

  ghost predicate Consistent(net: Network, sources: seq<Source>, p: PoolState) {
    && Sound(p)
    && (forall s :: s in sources ==> SourceFits(net, s, p))
    && (forall f :: f in p.futures ==> Located(net, f.step, f.pipe))
    && Served(sources, p)
  }

  // ---------------------------------------------------------------------------------------
  // Steps of the workers and of the pool

  lemma AfterWorkers(net: Network, sources: seq<Source>, p: PoolState, q: PoolState)
    requires Routed(net) && Consistent(net, sources, p) && Worked(p, q)
    ensures Consistent(net, sources, q) && Alike(p, q)
    ensures Owed(net, sources, q) == Owed(net, sources, p)
    ensures Pending(net, sources, q) <= Pending(net, sources, p)
    ensures forall h: int :: Balanced(p, h) ==> Balanced(q, h)
    ensures forall held :: HeldFits(net, held, p) ==> HeldFits(net, held, q)
  {
    WorkedKeepsAccounts(net, p, q);
    hide Worked, PoolBag, PoolEffort, Balanced, Routed;
    AlikeFits(net, sources, p, q);
    forall held | HeldFits(net, held, p) ensures HeldFits(net, held, q) {
      AlikeHeld(net, held, p, q);
    }
  }

  lemma AlikeHeld(net: Network, held: Option<InFlight>, p: PoolState, q: PoolState)
    requires Alike(p, q) && HeldFits(net, held, p)
    ensures HeldFits(net, held, q)
  {
    if held.Some? && held.value.payload.CallInto? {
      var k := held.value.payload.cell;
      assert SameWrapper(p.closures[k], q.closures[k]);
    }
  }

  lemma AlikeFits(net: Network, sources: seq<Source>, p: PoolState, q: PoolState)
    requires Consistent(net, sources, p) && Alike(p, q) && Sound(q)
    ensures Consistent(net, sources, q)
  {
    hide Sound;
    forall s | s in sources ensures SourceFits(net, s, q) {
      assert SourceFits(net, s, p);
      if s.stream.Wrapped? {
        assert SameWrapper(p.closures[s.stream.cell], q.closures[s.stream.cell]);
      }
    }
    forall f | f in q.futures ensures Located(net, f.step, f.pipe) {
      var i :| 0 <= i < |q.futures| && q.futures[i] == f;
      assert SameFuture(p.futures[i], f) && p.futures[i] in p.futures;
    }
    forall k | 0 <= k < |q.closures| && q.closures[k].cells.rest != [] ensures HasSource(sources, k) {
      assert SameWrapper(p.closures[k], q.closures[k]);
    }
  }

  lemma ConsumeBalances(p: PoolState, i: nat)
    requires Balanced(p, -1) && i < |p.futures| && p.futures[i].phase.Done?
    ensures Balanced(Consume(p, i), -1)
  {
    forall k: nat | k < |p.closures|
      ensures Total(Consume(p, i).futures, Pulls(k)) + (if k == -1 then 1 else 0) == if p.closures[k].cells.busy then 1
              else 0
    {
      TotalRemove(p.futures, i, Pulls(k));
    }
  }

  lemma AfterConsume(net: Network, sources: seq<Source>, p: PoolState, i: nat)
    requires Routed(net) && Consistent(net, sources, p) && Balanced(p, -1)
    requires i < |p.futures| && p.futures[i].phase.Done?
    ensures
      var q, held := Consume(p, i), Resolved(p.futures[i]);
      && Consistent(net, sources, q) && Balanced(q, Hand(held)) && HeldFits(net, held, q)
      && Owed(net, sources, q) + HeldBag(net, held) == Owed(net, sources, p)
      && Pending(net, sources, q) + HeldEffort(net, held) < Pending(net, sources, p)
  {
    hide Consistent, Balanced, HeldFits, HeldBag, HeldEffort, FutureBag, FutureEffort, Routed, Resolved, Hand;
    ConsumeFits(net, sources, p, i);
    BagRemove(p.futures, i, FutureBag(net));
    TotalRemove(p.futures, i, FutureEffort(net));
    ResolvedIs(net, p.futures[i]);
  }

  lemma ConsumeFits(net: Network, sources: seq<Source>, p: PoolState, i: nat)
    requires Consistent(net, sources, p) && Balanced(p, -1)
    requires i < |p.futures| && p.futures[i].phase.Done?
    ensures
      var q, held := Consume(p, i), Resolved(p.futures[i]);
      Consistent(net, sources, q) && Balanced(q, Hand(held)) && HeldFits(net, held, q)
  {
    var q, f := Consume(p, i), p.futures[i];
    hide Sound, Balanced, Served, SourceFits;
    assert Sound(p) && Sound(q) by { ConsumeKeepsSound(p, i); }
    assert f in p.futures;
    forall g | g in q.futures ensures g in p.futures {}
    ConsumeBalances(p, i);
    StillServed(sources, p, i);
  }

  lemma StillServed(sources: seq<Source>, p: PoolState, i: nat)
    requires i < |p.futures|
    ensures Served(sources, p) <==> Served(sources, Consume(p, i))
    ensures forall net, s :: SourceFits(net, s, p) <==> SourceFits(net, s, Consume(p, i))
  {
  }

  lemma ResolvedIs(net: Network, f: Future)
    requires Routed(net) && f.phase.Done?
    ensures FutureBag(net)(f) == HeldBag(net, Resolved(f))
    ensures FutureEffort(net)(f) == 1 + HeldEffort(net, Resolved(f))
  {
  }

  /** How an item in hand is submitted. */
  function TaskOf(x: InFlight): Option<Task> {
    match x.payload
    case Bare(Deferred(y)) => Some(Own(y))
    case CallInto(k) => Some(Pull(k))
    case _ => None
  }

  lemma EnqueueBalances(p: PoolState, f: Future, hand: int)
    requires Balanced(p, hand) && f.phase.Queued?
    requires hand == if f.phase.task.Pull? then f.phase.task.cell else -1
    ensures Balanced(Enqueue(p, f), -1)
  {
    forall k: nat | k < |p.closures|
      ensures Total(p.futures + [f], Pulls(k)) + (if k == -1 then 1 else 0) == if p.closures[k].cells.busy then 1 else 0
    {
      TotalAppend(p.futures, f, Pulls(k));
    }
  }

  lemma EnqueueFits(net: Network, sources: seq<Source>, p: PoolState, f: Future)
    requires Consistent(net, sources, p) && f.phase.Queued? && Located(net, f.step, f.pipe)
    requires f.phase.task.Pull? ==> SameRoute(p, f, f.phase.task.cell)
    ensures Consistent(net, sources, Enqueue(p, f))
  {
    EnqueueKeepsSound(p, f);
    forall s | s in sources ensures SourceFits(net, s, Enqueue(p, f)) {
      assert SourceFits(net, s, p);
    }
    ServedStays(sources, p, sources, Enqueue(p, f));
  }

  lemma AfterEnqueue(net: Network, sources: seq<Source>, p: PoolState, x: InFlight)
    requires Routed(net) && Consistent(net, sources, p)
    requires TaskOf(x).Some? && HeldFits(net, Some(x), p) && Balanced(p, Hand(Some(x)))
    ensures
      var q := Enqueue(p, Future(Queued(TaskOf(x).value), x.step, x.pipe, x.meta));
      && Consistent(net, sources, q) && Balanced(q, -1)
      && Owed(net, sources, q) == Owed(net, sources, p) + InFlightBag(net, x)
      && Pending(net, sources, q) < Pending(net, sources, p) + InFlightEffort(net, x)
  {
    var f := Future(Queued(TaskOf(x).value), x.step, x.pipe, x.meta);
    assert f.phase.task.Pull? ==> SameRoute(p, f, f.phase.task.cell);
    EnqueueFits(net, sources, p, f);
    EnqueueBalances(p, f, Hand(Some(x)));
    EnqueueAccounts(net, sources, p, f);
    SubmissionCosts(net, x);
  }

  lemma EnqueueAccounts(net: Network, sources: seq<Source>, p: PoolState, f: Future)
    requires Routed(net)
    ensures Owed(net, sources, Enqueue(p, f)) == Owed(net, sources, p) + FutureBag(net)(f)
    ensures Pending(net, sources, Enqueue(p, f)) == Pending(net, sources, p) + FutureEffort(net)(f)
  {
    BagAppend(p.futures, f, FutureBag(net));
    TotalAppend(p.futures, f, FutureEffort(net));
  }

  lemma SubmissionCosts(net: Network, x: InFlight)
    requires Routed(net) && TaskOf(x).Some?
    ensures
      var f := Future(Queued(TaskOf(x).value), x.step, x.pipe, x.meta);
      FutureBag(net)(f) == InFlightBag(net, x) && FutureEffort(net)(f) < InFlightEffort(net, x)
  {
  }

  // ---------------------------------------------------------------------------------------
  // A generator in hand becomes the newest source

  lemma AfterAppend(net: Network, sources: seq<Source>, p: PoolState, s: Source, x: InFlight)
    requires Routed(net) && Consistent(net, sources, p) && HeldFits(net, Some(x), p)
    requires s.step == x.step && s.pipe == x.pipe && s.meta == x.meta
    requires match x.payload
             case Bare(Generator(false, elements)) => s.stream == Listed(elements)
             case Forked(data, targets) => s.stream == Forking(data, targets)
             case _ => false
    ensures Consistent(net, sources + [s], p)
    ensures Owed(net, sources + [s], p) == Owed(net, sources, p) + InFlightBag(net, x)
    ensures Pending(net, sources + [s], p) < Pending(net, sources, p) + InFlightEffort(net, x)
  {
    BagAppend(sources, s, SourceBag(net));
    TotalAppend(sources, s, SourceEffort(net));
    ServedStays(sources, p, sources + [s], p);
    assert SourceBag(net)(s) == InFlightBag(net, x);
    assert SourceEffort(net)(s) < InFlightEffort(net, x);
  }

  lemma ServedStays(sources: seq<Source>, p: PoolState, sources': seq<Source>, p': PoolState)
    requires Served(sources, p)
    requires |p'.closures| == |p.closures|
    requires forall k :: 0 <= k < |p.closures| && p.closures[k].cells.rest == [] ==> p'.closures[k].cells.rest == []
    requires forall i :: 0 <= i < |sources| && sources[i].stream.Wrapped? ==> sources[i] in sources'
    ensures Served(sources', p')
  {
    forall k | 0 <= k < |p'.closures| && p'.closures[k].cells.rest != [] ensures HasSource(sources', k) {
      assert HasSource(sources, k);
      var i :| 0 <= i < |sources| && sources[i].stream == Wrapped(k);
      var j :| 0 <= j < |sources'| && sources'[j] == sources[i];
    }
  }

  lemma {:induction false} NoPulls(fs: seq<Future>, n: nat)
    requires forall f :: f in fs && f.phase.Queued? && f.phase.task.Pull? ==> f.phase.task.cell < n
    ensures Total(fs, Pulls(n)) == 0
  {
    if fs != [] {
      assert fs[0] in fs && forall f :: f in fs[1..] ==> f in fs;
      NoPulls(fs[1..], n);
    }
  }

  lemma ClosureKeepsSound(p: PoolState, elements: seq<Yield>, step: int, pipe: PipeId, meta: Meta)
    requires Sound(p) && Balanced(p, -1)
    ensures Sound(AddClosure(p, elements, step, pipe, meta)) && Balanced(AddClosure(p, elements, step, pipe, meta), -1)
  {
    var q := AddClosure(p, elements, step, pipe, meta);
    forall f | f in q.futures && f.phase.Queued? && f.phase.task.Pull? ensures SameRoute(q, f, f.phase.task.cell) {
      assert SameRoute(p, f, f.phase.task.cell);
    }
    NoPulls(p.futures, |p.closures|);
    forall k: nat | k < |q.closures|
      ensures Total(q.futures, Pulls(k)) + (if k == -1 then 1 else 0) == if q.closures[k].cells.busy then 1 else 0
    {
    }
  }

  lemma AfterAppendParallel(net: Network, sources: seq<Source>, p: PoolState, id: nat, x: InFlight)
    requires Routed(net) && Consistent(net, sources, p) && HeldFits(net, Some(x), p) && Balanced(p, -1)
    requires x.payload.Bare? && x.payload.item.Generator? && x.payload.item.parallel
    ensures
      var q := AddClosure(p, x.payload.item.elements, x.step, x.pipe, x.meta);
      var sources' := sources + [Source(id, Wrapped(|p.closures|), x.step, x.pipe, x.meta)];
      && Consistent(net, sources', q) && Balanced(q, -1)
      && Owed(net, sources', q) == Owed(net, sources, p) + InFlightBag(net, x)
      && Pending(net, sources', q) < Pending(net, sources, p) + InFlightEffort(net, x)
  {
    var c := Closure(Fresh(x.payload.item.elements), x.step, x.pipe, x.meta);
    var s := Source(id, Wrapped(|p.closures|), x.step, x.pipe, x.meta);
    ClosureKeepsSound(p, x.payload.item.elements, x.step, x.pipe, x.meta);
    ParallelFits(net, sources, p, s, x.payload.item.elements);
    ParallelCosts(net, s, c, x);
    hide Consistent, Balanced, HeldFits, InFlightBag, InFlightEffort, Routed;
    BagAppend(sources, s, SourceBag(net));
    TotalAppend(sources, s, SourceEffort(net));
    BagAppend(p.closures, c, ClosureBag(net));
    TotalAppend(p.closures, c, ClosureEffort(net));
  }

  lemma ParallelCosts(net: Network, s: Source, c: Closure, x: InFlight)
    requires Routed(net) && x.payload.Bare? && x.payload.item.Generator? && x.payload.item.parallel
    requires c == Closure(Fresh(x.payload.item.elements), x.step, x.pipe, x.meta) && s.stream.Wrapped?
    ensures ClosureBag(net)(c) == InFlightBag(net, x) && SourceBag(net)(s) == multiset{}
    ensures SourceEffort(net)(s) + ClosureEffort(net)(c) < InFlightEffort(net, x)
  {
  }

  lemma ParallelFits(net: Network, sources: seq<Source>, p: PoolState, s: Source, elements: seq<Yield>)
    requires Consistent(net, sources, p) && Located(net, s.step, s.pipe) && s.stream == Wrapped(|p.closures|)
    requires Sound(AddClosure(p, elements, s.step, s.pipe, s.meta))
    ensures Consistent(net, sources + [s], AddClosure(p, elements, s.step, s.pipe, s.meta))
  {
    var q := AddClosure(p, elements, s.step, s.pipe, s.meta);
    forall t | t in sources + [s] ensures SourceFits(net, t, q) {
      if t in sources {
        assert SourceFits(net, t, p);
      }
    }
    forall k | 0 <= k < |q.closures| && q.closures[k].cells.rest != [] ensures HasSource(sources + [s], k) {
      if k < |p.closures| {
        assert HasSource(sources, k);
        var i :| 0 <= i < |sources| && sources[i].stream == Wrapped(k);
        assert (sources + [s])[i].stream == Wrapped(k);
      } else {
        assert (sources + [s])[|sources|].stream == Wrapped(k);
      }
    }
  }

  // ---------------------------------------------------------------------------------------
  // `next` on a source

  datatype Pulled = Ended | Absent | Got(x: InFlight)

  /** One `next` on source `s`, given the cells of the generator if it is parallelized: the
      source afterwards, the cells afterwards, and what it yielded. */
  function Advance(s: Source, c: Cells): (Source, Cells, Pulled) {
    match s.stream
    case Listed(rest) =>
      if rest == [] then (s, c, Ended)
      else
        var after := s.(stream := Listed(rest[1..]));
        (match rest[0]
         case Nothing => (after, c, Absent)
         case Plain(item) => (after, c, Got(InFlight(Bare(item), s.step, s.pipe, s.meta)))
         case Tagged(item, own) => (after, c, Got(InFlight(Bare(item), s.step, s.pipe, own))))
    case Forking(data, targets) =>
      if targets == [] then (s, c, Ended)
      else (s.(stream := Forking(data, targets[1..])), c,
            Got(InFlight(Bare(Value(data)), targets[0].step, targets[0].pipe, s.meta)))
    case Wrapped(k) =>
      var (d, polled) := Poll(c);
      (s, d, match polled
             case Stopped => Ended
             case NotReady => Absent
             case Emitted => Got(InFlight(CallInto(k), s.step, s.pipe, s.meta)))
  }

  function PulledItem(r: Pulled): Option<InFlight> {
    if r.Got? then Some(r.x) else None
  }

  /** The cells that belong to a source; any cells do for a source that is not parallelized. */
  function CellsOf(s: Source, p: PoolState): Cells {
    if s.stream.Wrapped? && s.stream.cell < |p.closures| then p.closures[s.stream.cell].cells else Fresh([])
  }

  function WithCells(s: Source, p: PoolState, c: Cells): PoolState {
    if s.stream.Wrapped? && s.stream.cell < |p.closures|
    then p.(closures := p.closures[s.stream.cell := p.closures[s.stream.cell].(cells := c)])
    else p
  }

  lemma AdvanceListed(net: Network, s: Source, p: PoolState)
    requires Routed(net) && SourceFits(net, s, p) && !s.stream.Wrapped?
    ensures
      var (t, _, r) := Advance(s, CellsOf(s, p));
      && SourceFits(net, t, p) && HeldFits(net, PulledItem(r), p) && Hand(PulledItem(r)) == -1
      && Yields(net, s) == (if r.Got? then Flatten(net, r.x.payload.item, r.x.step, r.x.pipe, r.x.meta) else [])
        + Yields(net, t)
      && (if r.Ended? then t == s && Yields(net, s) == [] && SourceEffort(net)(s) >= 1
          else SourceEffort(net)(t) + HeldEffort(net, PulledItem(r)) < SourceEffort(net)(s))
  {
    match s.stream
    case Listed(rest) =>
      if rest != [] {
        FirstOfAll(net, rest, s.step, s.pipe, s.meta);
        YieldMeaning(net, rest[0], s.step, s.pipe, s.meta);
      }
    case Forking(data, targets) =>
      if targets != [] {
        assert Downstream(net, s.pipe, targets[0]);
      }
  }

  lemma FirstOfAll(net: Network, ys: seq<Yield>, step: int, pipe: PipeId, meta: Meta)
    requires Routed(net) && ys != []
    ensures FlattenAll(net, ys, step, pipe, meta) ==
            FlattenYield(net, ys[0], step, pipe, meta) + FlattenAll(net, ys[1..], step, pipe, meta)
    ensures EffortAll(net, ys, step, pipe, meta) ==
            1 + EffortYield(net, ys[0], step, pipe, meta) + EffortAll(net, ys[1..], step, pipe, meta)
  {
  }

  lemma YieldMeaning(net: Network, y: Yield, step: int, pipe: PipeId, meta: Meta)
    requires Routed(net)
    ensures y.Nothing? ==> FlattenYield(net, y, step, pipe, meta) == [] && EffortYield(net, y, step, pipe, meta) == 0
    ensures y.Plain? ==>
      && FlattenYield(net, y, step, pipe, meta) == Flatten(net, y.item, step, pipe, meta)
      && EffortYield(net, y, step, pipe, meta) == Effort(net, y.item, step, pipe, meta)
    ensures y.Tagged? ==>
      && FlattenYield(net, y, step, pipe, meta) == Flatten(net, y.item, step, pipe, y.meta)
      && EffortYield(net, y, step, pipe, meta) == Effort(net, y.item, step, pipe, y.meta)
  {
  }

  lemma ListedBag(net: Network, s: Source, t: Source, r: Pulled)
    requires Routed(net) && (r.Got? ==> r.x.payload.Bare?)
    requires Yields(net, s) == (if r.Got? then Flatten(net, r.x.payload.item, r.x.step, r.x.pipe, r.x.meta) else [])
             + Yields(net, t)
    ensures SourceBag(net)(t) + HeldBag(net, PulledItem(r)) == SourceBag(net)(s)
  {
    var head := if r.Got? then Flatten(net, r.x.payload.item, r.x.step, r.x.pipe, r.x.meta) else [];
    assert multiset(head + Yields(net, t)) == multiset(head) + multiset(Yields(net, t));
  }

  /** Polling the `i`-th source: nothing is lost, and anything but waiting for a busy generator
      takes work off. */
  lemma AfterAdvance(net: Network, sources: seq<Source>, p: PoolState, i: nat)
    requires Routed(net) && Consistent(net, sources, p) && Balanced(p, -1) && i < |sources|
    ensures
      var (t, d, r) := Advance(sources[i], CellsOf(sources[i], p));
      var sources', q := sources[i := t], WithCells(sources[i], p, d);
      && Consistent(net, sources', q) && Balanced(q, Hand(PulledItem(r))) && HeldFits(net, PulledItem(r), q)
      && Owed(net, sources', q) + HeldBag(net, PulledItem(r)) == Owed(net, sources, p)
      && Pending(net, sources', q) + HeldEffort(net, PulledItem(r)) <= Pending(net, sources, p)
      && (r.Got? ==> Pending(net, sources', q) + HeldEffort(net, PulledItem(r)) < Pending(net, sources, p))
      && (r.Absent? ==> Pending(net, sources', q) < Pending(net, sources, p) || p.futures != [])
  {
    if sources[i].stream.Wrapped? {
      AdvanceWrapped(net, sources, p, i);
    } else {
      AdvanceUnwrapped(net, sources, p, i);
    }
  }

  lemma AdvanceUnwrapped(net: Network, sources: seq<Source>, p: PoolState, i: nat)
    requires Routed(net) && Consistent(net, sources, p) && Balanced(p, -1) && i < |sources|
             && !sources[i].stream.Wrapped?
    ensures
      var (t, d, r) := Advance(sources[i], CellsOf(sources[i], p));
      var sources' := sources[i := t];
      && WithCells(sources[i], p, d) == p
      && Consistent(net, sources', p) && Balanced(p, Hand(PulledItem(r))) && HeldFits(net, PulledItem(r), p)
      && Owed(net, sources', p) + HeldBag(net, PulledItem(r)) == Owed(net, sources, p)
      && Pending(net, sources', p) + HeldEffort(net, PulledItem(r)) <= Pending(net, sources, p)
      && (!r.Ended? ==> Pending(net, sources', p) + HeldEffort(net, PulledItem(r)) < Pending(net, sources, p))
  {
    hide Consistent, Balanced, HeldFits, Advance, CellsOf, PoolBag, PoolEffort, SourceFits, WithCells, Routed, HeldBag,
         HeldEffort, Yields, SourceBag, SourceEffort;
    SourceAt(net, sources, p, i);
    UnwrappedKeepsCells(sources[i], p);
    var s := sources[i];
    var t, r := Advance(s, CellsOf(s, p)).0, Advance(s, CellsOf(s, p)).2;
    AdvanceListed(net, s, p);
    ListedBag(net, s, t, r);
    BagUpdate(sources, i, t, SourceBag(net));
    TotalUpdate(sources, i, t, SourceEffort(net));
    NoEffort(net);
    UpdateFits(net, sources, p, i, t);
    AccountMoves(Bag(sources, SourceBag(net)), Bag(sources[i := t], SourceBag(net)), SourceBag(net)(s),
                 SourceBag(net)(t),
                 HeldBag(net, PulledItem(r)));
  }

  lemma NoEffort(net: Network)
    requires Routed(net)
    ensures HeldEffort(net, None) == 0
  {
  }

  lemma SourceAt(net: Network, sources: seq<Source>, p: PoolState, i: nat)
    requires Consistent(net, sources, p) && i < |sources|
    ensures SourceFits(net, sources[i], p)
  {
    assert sources[i] in sources;
  }

  lemma UnwrappedKeepsCells(s: Source, p: PoolState)
    requires !s.stream.Wrapped?
    ensures WithCells(s, p, Advance(s, CellsOf(s, p)).1) == p
    ensures Advance(s, CellsOf(s, p)).2.Got? ==> Advance(s, CellsOf(s, p)).2.x.payload.Bare?
  {
  }

  lemma AccountMoves<T>(a: multiset<T>, a': multiset<T>, s: multiset<T>, s': multiset<T>, h: multiset<T>)
    requires a' + s == a + s' && s' + h == s
    ensures a' + h == a
  {
    forall x ensures (a' + h)[x] == a[x] {
      assert (a' + s)[x] == (a + s')[x] && (s' + h)[x] == s[x];
    }
  }

  lemma UpdateFits(net: Network, sources: seq<Source>, p: PoolState, i: nat, t: Source)
    requires Routed(net) && Consistent(net, sources, p) && i < |sources|
    requires SourceFits(net, t, p) && !sources[i].stream.Wrapped?
    ensures Consistent(net, sources[i := t], p)
  {
    forall u | u in sources[i := t] ensures SourceFits(net, u, p) {
      assert u == t || u in sources;
    }
    forall j | 0 <= j < |sources| && sources[j].stream.Wrapped? ensures sources[j] in sources[i := t] {
      assert sources[i := t][j] == sources[j];
    }
    ServedStays(sources, p, sources[i := t], p);
  }

  /** The pool after a poll of the wrapper of the `k`-th parallelized generator. */
  function Polling(p: PoolState, k: nat): PoolState
    requires k < |p.closures|
  {
    p.(closures := p.closures[k := p.closures[k].(cells := Poll(p.closures[k].cells).0)])
  }

  lemma PollFits(net: Network, sources: seq<Source>, p: PoolState, k: nat)
    requires Consistent(net, sources, p) && k < |p.closures|
    ensures Consistent(net, sources, Polling(p, k))
  {
    var q := Polling(p, k);
    forall u | u in sources ensures SourceFits(net, u, q) {
      assert SourceFits(net, u, p);
    }
    ServedStays(sources, p, sources, q);
    forall f | f in q.futures && f.phase.Queued? && f.phase.task.Pull? ensures SameRoute(q, f, f.phase.task.cell) {
      assert SameRoute(p, f, f.phase.task.cell);
    }
    assert p.closures[k] in p.closures;
  }

  lemma PollBalances(p: PoolState, k: nat)
    requires Balanced(p, -1) && k < |p.closures|
    ensures Balanced(Polling(p, k), if Poll(p.closures[k].cells).1 == Emitted then k else -1)
  {
  }

  lemma PollAccounts(net: Network, sources: seq<Source>, p: PoolState, k: nat)
    requires Routed(net) && k < |p.closures| && SoundCells(p.closures[k].cells)
    ensures Owed(net, sources, Polling(p, k)) == Owed(net, sources, p)
    ensures Pending(net, sources, Polling(p, k)) + (if Poll(p.closures[k].cells).1 == Emitted then CALL_COST else 0)
            <= Pending(net, sources, p)
  {
    var d := Polling(p, k).closures[k];
    PollCosts(net, p.closures[k]);
    BagKept(p.closures, k, d, ClosureBag(net));
    TotalUpdate(p.closures, k, d, ClosureEffort(net));
  }

  lemma PollCosts(net: Network, c: Closure)
    requires Routed(net) && SoundCells(c.cells)
    ensures
      var d := c.(cells := Poll(c.cells).0);
      && ClosureBag(net)(d) == ClosureBag(net)(c)
      && ClosureEffort(net)(d) + (if Poll(c.cells).1 == Emitted then CALL_COST else 0) <= ClosureEffort(net)(c)
  {
  }

  lemma AdvanceWrapped(net: Network, sources: seq<Source>, p: PoolState, i: nat)
    requires Routed(net) && Consistent(net, sources, p) && Balanced(p, -1) && i < |sources|
             && sources[i].stream.Wrapped?
    ensures
      var (t, d, r) := Advance(sources[i], CellsOf(sources[i], p));
      var q := WithCells(sources[i], p, d);
      && t == sources[i] && sources[i := t] == sources
      && Consistent(net, sources, q) && Balanced(q, Hand(PulledItem(r))) && HeldFits(net, PulledItem(r), q)
      && Owed(net, sources, q) + HeldBag(net, PulledItem(r)) == Owed(net, sources, p)
      && Pending(net, sources, q) + HeldEffort(net, PulledItem(r)) <= Pending(net, sources, p)
      && (r.Got? ==> Pending(net, sources, q) + HeldEffort(net, PulledItem(r)) < Pending(net, sources, p))
      && (r.Absent? ==> p.futures != [])
  {
    var s := sources[i];
    assert s in sources && SourceFits(net, s, p);
    var k := s.stream.cell;
    assert p.closures[k] in p.closures;
    var r := Advance(s, CellsOf(s, p)).2;
    var q := WithCells(s, p, Advance(s, CellsOf(s, p)).1);
    assert q == Polling(p, k);
    PollFits(net, sources, p, k);
    PollBalances(p, k);
    PollAccounts(net, sources, p, k);
    var emitted := Poll(p.closures[k].cells).1 == Emitted;
    assert PulledItem(r) == if emitted then Some(InFlight(CallInto(k), s.step, s.pipe, s.meta)) else None;
    assert HeldBag(net, PulledItem(r)) == multiset{};
    assert HeldEffort(net, PulledItem(r)) == if emitted then CALL_COST - 1 else 0;
    if r.Absent? {
      BusyHasFuture(p, k);
    }
  }

  /** The call of a busy generator is in the pool. */
  lemma BusyHasFuture(p: PoolState, k: nat)
    requires Balanced(p, -1) && k < |p.closures| && p.closures[k].cells.busy
    ensures p.futures != []
  {
    assert Total(p.futures, Pulls(k)) == 1;
    assert p.futures == [] ==> Total(p.futures, Pulls(k)) == 0;
  }

  // ---------------------------------------------------------------------------------------
  // The outer test of a wrapper

  /** The pool after the polling thread passed the outer test of the source, if that is a wrapper
      standing before it. */
  function Entering(s: Source, p: PoolState): PoolState {
    WithCells(s, p, Enter(CellsOf(s, p)))
  }

  /** `q` may be the pool when the polling thread makes its inner test of the source: workers act
      before and after the outer one. */
  ghost predicate Reached(s: Source, p: PoolState, q: PoolState) {
    exists m :: Worked(p, m) && Worked(Entering(s, m), q)
  }

  lemma EnteringFits(net: Network, sources: seq<Source>, p: PoolState, s: Source)
    requires Consistent(net, sources, p)
    ensures Consistent(net, sources, Entering(s, p))
  {
    var q := Entering(s, p);
    if q != p {
      var k := s.stream.cell;
      forall u | u in sources ensures SourceFits(net, u, q) {
        assert SourceFits(net, u, p);
      }
      ServedStays(sources, p, sources, q);
      forall f | f in q.futures && f.phase.Queued? && f.phase.task.Pull? ensures SameRoute(q, f, f.phase.task.cell) {
        assert SameRoute(p, f, f.phase.task.cell);
      }
      assert p.closures[k] in p.closures;
    }
  }

  lemma EnteringBalanced(s: Source, p: PoolState)
    requires Balanced(p, -1)
    ensures Balanced(Entering(s, p), -1)
  {
  }

  /** Passing the outer test changes no account. */
  lemma EnteringAccounts(net: Network, sources: seq<Source>, p: PoolState, s: Source)
    requires Routed(net)
    ensures
      var q := Entering(s, p);
      && Owed(net, sources, q) == Owed(net, sources, p) && Pending(net, sources, q) == Pending(net, sources, p)
      && q.usedSlots == p.usedSlots && q.futures == p.futures
      && (Balanced(p, -1) ==> Balanced(q, -1))
  {
    hide Balanced, Yields;
    var q := Entering(s, p);
    if Balanced(p, -1) {
      EnteringBalanced(s, p);
    }
    if q != p {
      var k := s.stream.cell;
      BagKept(p.closures, k, q.closures[k], ClosureBag(net));
      TotalUpdate(p.closures, k, q.closures[k], ClosureEffort(net));
      assert ClosureEffort(net)(q.closures[k]) == ClosureEffort(net)(p.closures[k]);
    }
  }

  /** Whatever the workers do before and after the outer test: the same items are owed, and no work
      was added. */
  lemma AfterReaching(net: Network, sources: seq<Source>, p: PoolState, q: PoolState, s: Source)
    requires Routed(net) && Consistent(net, sources, p) && Balanced(p, -1) && Reached(s, p, q)
    ensures Consistent(net, sources, q) && Balanced(q, -1)
    ensures Owed(net, sources, q) == Owed(net, sources, p) && Pending(net, sources, q) <= Pending(net, sources, p)
    ensures q.usedSlots <= p.usedSlots && |q.futures| == |p.futures|
  {
    var m :| Worked(p, m) && Worked(Entering(s, m), q);
    var e := Entering(s, m);
    hide Worked, Routed, Owed, Pending, Balanced, Entering, Alike;
    AfterWorkers(net, sources, p, m);
    WorkedShape(net, p, m);
    EnteringFits(net, sources, m, s);
    EnteringAccounts(net, sources, m, s);
    AfterWorkers(net, sources, e, q);
    WorkedShape(net, e, q);
  }

  lemma WorkedShape(net: Network, p: PoolState, q: PoolState)
    requires Routed(net) && Sound(p) && Worked(p, q)
    ensures q.usedSlots <= p.usedSlots && |q.futures| == |p.futures|
  {
    WorkedKeepsAccounts(net, p, q);
  }

  /** A source that has ended owes nothing and is dropped. */
  lemma AfterPop(net: Network, sources: seq<Source>, p: PoolState, i: nat)
    requires Routed(net) && Consistent(net, sources, p) && i < |sources|
    requires Advance(sources[i], CellsOf(sources[i], p)).2 == Ended
    ensures
      var sources' := sources[..i] + sources[i + 1..];
      && Consistent(net, sources', p)
      && Owed(net, sources', p) == Owed(net, sources, p)
      && Pending(net, sources', p) < Pending(net, sources, p)
  {
    PopFits(net, sources, p, i);
    EndedOwesNothing(net, sources, p, i);
    hide Consistent, Advance, CellsOf, SourceBag, SourceEffort, PoolBag, PoolEffort, Yields;
    BagRemove(sources, i, SourceBag(net));
    TotalRemove(sources, i, SourceEffort(net));
  }

  lemma EndedOwesNothing(net: Network, sources: seq<Source>, p: PoolState, i: nat)
    requires Routed(net) && Consistent(net, sources, p) && i < |sources|
    requires Advance(sources[i], CellsOf(sources[i], p)).2 == Ended
    ensures SourceBag(net)(sources[i]) == multiset{} && SourceEffort(net)(sources[i]) >= 1
  {
    assert sources[i] in sources && SourceFits(net, sources[i], p);
  }

  lemma PopFits(net: Network, sources: seq<Source>, p: PoolState, i: nat)
    requires Consistent(net, sources, p) && i < |sources|
    requires Advance(sources[i], CellsOf(sources[i], p)).2 == Ended
    ensures Consistent(net, sources[..i] + sources[i + 1..], p)
  {
    var s, sources' := sources[i], sources[..i] + sources[i + 1..];
    assert s in sources && SourceFits(net, s, p);
    forall u | u in sources' ensures u in sources {}
    forall k | 0 <= k < |p.closures| && p.closures[k].cells.rest != [] ensures HasSource(sources', k) {
      assert HasSource(sources, k);
      var j :| 0 <= j < |sources| && sources[j].stream == Wrapped(k);
      assert p.closures[k] in p.closures;
      assert j != i;
      assert sources'[if j < i then j else j - 1] == sources[j];
    }
  }

  // ---------------------------------------------------------------------------------------
  // A value moves one step along its pipe

  /** What stands at the next step after `data` at `step` of `pipe` was handed to it. */
  function Proceed(net: Network, x: InFlight): Option<InFlight>
    requires x.payload.Bare? && x.payload.item.Value?
    requires Located(net, x.step, x.pipe) && x.step < |net.pipes[x.pipe]| - 1
  {
    match net.pipes[x.pipe][x.step + 1]
    case Transform(f) =>
      (match f(x.payload.item.data, x.meta)
       case Nothing => None
       case Plain(item) => Some(InFlight(Bare(item), x.step + 1, x.pipe, x.meta))
       case Tagged(item, own) => Some(InFlight(Bare(item), x.step + 1, x.pipe, own)))
    case Fork(targets) => Some(InFlight(Forked(x.payload.item.data, targets), x.step + 1, x.pipe, x.meta))
  }

  lemma AfterProceed(net: Network, x: InFlight, p: PoolState)
    requires Routed(net)
    requires x.payload.Bare? && x.payload.item.Value?
    requires Located(net, x.step, x.pipe) && x.step < |net.pipes[x.pipe]| - 1
    ensures HeldFits(net, Proceed(net, x), p) && Hand(Proceed(net, x)) == -1
    ensures HeldBag(net, Proceed(net, x)) == InFlightBag(net, x)
    ensures HeldEffort(net, Proceed(net, x)) < InFlightEffort(net, x)
  {
    ProceedFits(net, x, p);
    hide HeldFits, Routed, Flatten, Effort, FlattenFork, EffortFork;
    var data, step := x.payload.item.data, net.pipes[x.pipe][x.step + 1];
    ValueMoves(net, data, x.step, x.pipe, x.meta);
    if step.Transform? {
      YieldMeaning(net, step.f(data, x.meta), x.step + 1, x.pipe, x.meta);
    }
  }

  lemma ProceedFits(net: Network, x: InFlight, p: PoolState)
    requires Routed(net)
    requires x.payload.Bare? && x.payload.item.Value?
    requires Located(net, x.step, x.pipe) && x.step < |net.pipes[x.pipe]| - 1
    ensures HeldFits(net, Proceed(net, x), p) && Hand(Proceed(net, x)) == -1
  {
  }

  lemma ValueMoves(net: Network, data: Data, step: int, pipe: PipeId, meta: Meta)
    requires Routed(net) && Located(net, step, pipe) && step < |net.pipes[pipe]| - 1
    ensures
      var next := net.pipes[pipe][step + 1];
      if next.Transform? then
        && Flatten(net, Value(data), step, pipe, meta) == FlattenYield(net, next.f(data, meta), step + 1, pipe, meta)
        && Effort(net, Value(data), step, pipe, meta) == 1 + EffortYield(net, next.f(data, meta), step + 1, pipe, meta)
      else
        && Flatten(net, Value(data), step, pipe, meta) == FlattenFork(net, data, meta, pipe, next.targets)
        && Effort(net, Value(data), step, pipe, meta) == 2 + EffortFork(net, data, meta, pipe, next.targets)
  {
  }

  /** With no sources and an empty pool nothing is owed any more. */
  lemma NothingOwed(net: Network, p: PoolState)
    requires Routed(net) && Consistent(net, [], p) && p.futures == []
    ensures Owed(net, [], p) == multiset{}
  {
    forall c | c in p.closures ensures c.cells.rest == [] {
      var k :| 0 <= k < |p.closures| && p.closures[k] == c;
      if HasSource([], k) {
        assert false;
      }
    }
    EmptyClosures(net, p.closures);
  }

  lemma {:induction false} EmptyClosures(net: Network, cs: seq<Closure>)
    requires Routed(net) && forall c :: c in cs ==> c.cells.rest == []
    ensures Bag(cs, ClosureBag(net)) == multiset{}
  {
    if cs != [] {
      assert cs[0] in cs && forall c :: c in cs[1..] ==> c in cs;
      EmptyClosures(net, cs[1..]);
    }
  }
}
