/**
  The extract iterator: it interleaves the generators of all sources, turns generators it meets
  into new sources, hands deferred items to the pool, and sends items along their pipes.
*/
module PipeIterator {
  import opened Options
  import opened PipeFlow
  import opened Handshake
  import opened Concurrency
  import opened Sums
  import opened IteratorAccounts
  import opened RoundRobin
  import opened PollOrder

  function Ids(sources: seq<Source>): seq<nat> {
    seq(|sources|, i requires 0 <= i < |sources| => sources[i].id)
  }

  /** Every parallelized generator is at most one source, identities grow, and exactly the first
      `initialCount` sources are initial ones. */
  ghost predicate InitialFirst(sources: seq<Source>, initialCount: int, initialIds: nat, nextId: nat) {
    && OneSourceEach(sources)
    && (forall i, j :: 0 <= i < j < |sources| ==> sources[i].id < sources[j].id)
    && (forall i :: 0 <= i < |sources| ==> sources[i].id < nextId)
    && initialIds <= nextId
    && 0 <= initialCount <= |sources|
    && (forall i :: 0 <= i < |sources| ==> (sources[i].id < initialIds <==> i < initialCount))
  }

  // ---------------------------------------------------------------------------------------
  // Newest first: what a synchronous network yields in fifo mode

  /** What the sources yield when the newest is always served first. */
  ghost function Stack(net: Network, sources: seq<Source>): seq<PipeItem>
    requires Routed(net)
  {
    if sources == [] then []
    else Yields(net, sources[|sources| - 1]) + Stack(net, sources[..|sources| - 1])
  }

  ghost function HeldFlat(net: Network, held: Option<InFlight>): seq<PipeItem>
    requires Routed(net)
  {
    match held
    case None => []
    case Some(InFlight(Bare(item), step, pipe, meta)) => Flatten(net, item, step, pipe, meta)
    case Some(InFlight(Forked(data, targets), step, pipe, meta)) => FlattenFork(net, data, meta, pipe, targets)
    case Some(InFlight(CallInto(_), _, _, _)) => []
  }

  ghost predicate HeldAtOnce(held: Option<InFlight>) {
    held.Some? ==> match held.value.payload
                   case Bare(item) => Immediate(item)
                   case Forked(_, _) => true
                   case CallInto(_) => false
  }

  ghost predicate AtOnce(net: Network, sources: seq<Source>, p: PoolState) {
    && Synchronous(net) && p.futures == []
    && forall s :: s in sources ==> StreamAtOnce(s.stream)
  }

  ghost predicate StreamAtOnce(stream: Stream) {
    match stream
    case Listed(rest) => AllImmediate(rest)
    case Wrapped(_) => false
    case Forking(_, _) => true
  }

  lemma AdvanceAtOnce(s: Source, c: Cells)
    requires StreamAtOnce(s.stream)
    ensures
      var (t, _, r) := Advance(s, c);
      StreamAtOnce(t.stream) && !r.Absent? && HeldAtOnce(PulledItem(r))
  {
    if s.stream.Listed? && s.stream.rest != [] {
      var y := s.stream.rest[0];
      assert ImmediateYield(y);
      assert y.Plain? || y.Tagged?;
      assert Immediate(y.item);
    }
  }

  lemma {:induction false} IdleWorkers(p: PoolState, es: seq<WorkerEvent>)
    requires p.futures == []
    ensures Workers(p, es) == p
    decreases es
  {
    if es != [] {
      IdleWorkers(p, es[1..]);
    }
  }

  lemma IdlePool(p: PoolState, q: PoolState)
    requires p.futures == [] && Worked(p, q)
    ensures q == p
  {
    var es :| Workers(p, es) == q;
    IdleWorkers(p, es);
  }

  lemma IdleReached(s: Source, p: PoolState, q: PoolState)
    requires p.futures == [] && !s.stream.Wrapped? && Reached(s, p, q)
    ensures q == p
  {
    var m :| Worked(p, m) && Worked(Entering(s, m), q);
    IdlePool(p, m);
    IdlePool(m, q);
  }

  /** Serving the newest source moves the front of the stack into the hand. */
  lemma NewestServed(net: Network, sources: seq<Source>, p: PoolState, c: Cells)
    requires Routed(net) && AtOnce(net, sources, p) && sources != []
    requires SourceFits(net, sources[|sources| - 1], p)
    ensures
      var n := |sources| - 1;
      var (t, _, r) := Advance(sources[n], c);
      && !r.Absent? && HeldAtOnce(PulledItem(r)) && AtOnce(net, sources[n := t], p)
      && HeldFlat(net, PulledItem(r)) + Stack(net, sources[n := t]) == Stack(net, sources)
      && (r.Ended? ==> Stack(net, sources[..n]) == Stack(net, sources))
  {
    var n := |sources| - 1;
    var s := sources[n];
    assert s in sources;
    var (t, _, r) := Advance(s, c);
    AdvanceFlat(net, s, p, c);
    hide *;
    NewestReplaced(net, sources, p, t, HeldFlat(net, PulledItem(r)));
  }

  lemma NewestReplaced(net: Network, sources: seq<Source>, p: PoolState, t: Source, head: seq<PipeItem>)
    requires Routed(net) && AtOnce(net, sources, p) && sources != [] && StreamAtOnce(t.stream)
    requires Yields(net, sources[|sources| - 1]) == head + Yields(net, t)
    ensures
      var n := |sources| - 1;
      && AtOnce(net, sources[n := t], p)
      && head + Stack(net, sources[n := t]) == Stack(net, sources)
      && (Yields(net, sources[n]) == [] ==> Stack(net, sources[..n]) == Stack(net, sources))
  {
    hide Routed, Yields, Synchronous, StreamAtOnce;
    var n := |sources| - 1;
    assert sources[n := t][..n] == sources[..n];
    assert head + (Yields(net, t) + Stack(net, sources[..n])) == (head + Yields(net, t)) + Stack(net, sources[..n]);
    assert [] + Stack(net, sources[..n]) == Stack(net, sources[..n]);
    forall u | u in sources[n := t] ensures u == t || u in sources {}
  }

  lemma AdvanceFlat(net: Network, s: Source, p: PoolState, c: Cells)
    requires Routed(net) && SourceFits(net, s, p) && StreamAtOnce(s.stream)
    ensures
      var (t, _, r) := Advance(s, c);
      && StreamAtOnce(t.stream) && !r.Absent? && HeldAtOnce(PulledItem(r))
      && Yields(net, s) == HeldFlat(net, PulledItem(r)) + Yields(net, t)
      && (r.Ended? ==> Yields(net, s) == [])
  {
    AdvanceListed(net, s, p);
    AdvanceAtOnce(s, c);
  }

  lemma ProceedAtOnce(net: Network, x: InFlight)
    requires Routed(net) && Synchronous(net)
    requires x.payload.Bare? && x.payload.item.Value?
    requires Located(net, x.step, x.pipe) && x.step < |net.pipes[x.pipe]| - 1
    ensures HeldAtOnce(Proceed(net, x)) && HeldFlat(net, Proceed(net, x)) == HeldFlat(net, Some(x))
  {
    var data, step := x.payload.item.data, net.pipes[x.pipe][x.step + 1];
    ValueMoves(net, data, x.step, x.pipe, x.meta);
    if step.Transform? {
      YieldMeaning(net, step.f(data, x.meta), x.step + 1, x.pipe, x.meta);
      assert ImmediateYield(step.f(data, x.meta));
    }
  }

  // ---------------------------------------------------------------------------------------
  // The iterator

  /** The generator of a root pipe, to be iterated from step 0. */
  datatype Seed = Seed(parallel: bool, elements: seq<Yield>, pipe: PipeId, meta: Meta)

  ghost function SeedYields(net: Network, seed: Seed): seq<PipeItem>
    requires Routed(net)
  {
    FlattenAll(net, seed.elements, 0, seed.pipe, seed.meta)
  }

  /** What all seeds yield, the last one first. */
  ghost function SeedLine(net: Network, seeds: seq<Seed>): seq<PipeItem>
    requires Routed(net)
  {
    if seeds == [] then []
    else SeedYields(net, seeds[|seeds| - 1]) + SeedLine(net, seeds[..|seeds| - 1])
  }

  /** A bound on all the work that the seeds may cause. */
  ghost function SeedEffort(net: Network, seeds: seq<Seed>): nat
    requires Routed(net)
  {
    if seeds == [] then 0
    else InFlightEffort(net, Sprout(seeds[|seeds| - 1])) + SeedEffort(net, seeds[..|seeds| - 1])
  }

  ghost predicate SeedAtOnce(seed: Seed) {
    !seed.parallel && AllImmediate(seed.elements)
  }

  /** The source iterates the elements of the seed from the first step of its pipe. */
  predicate IsSeeded(s: Source, seed: Seed, p: PoolState) {
    && s.step == 0 && s.pipe == seed.pipe && s.meta == seed.meta
    && if seed.parallel
       then s.stream.Wrapped? && s.stream.cell < |p.closures| && p.closures[s.stream.cell].cells == Fresh(seed.elements)
       else s.stream == Listed(seed.elements)
  }

  lemma SeededStill(sources: seq<Source>, seeds: seq<Seed>, n: nat, p: PoolState)
    requires n < |seeds| && |sources| == n && forall i :: 0 <= i < n ==> IsSeeded(sources[i], seeds[i], p)
    requires seeds[n].parallel
    ensures
      var q := AddClosure(p, seeds[n].elements, 0, seeds[n].pipe, seeds[n].meta);
      && (forall i :: 0 <= i < n ==> IsSeeded(sources[i], seeds[i], q))
      && IsSeeded(Source(n, Wrapped(|p.closures|), 0, seeds[n].pipe, seeds[n].meta), seeds[n], q)
  {
    forall i | 0 <= i < n
      ensures IsSeeded(sources[i], seeds[i], AddClosure(p, seeds[n].elements, 0, seeds[n].pipe, seeds[n].meta))
    {
      assert IsSeeded(sources[i], seeds[i], p);
    }
  }

  ghost predicate SownSources(net: Network, seeds: seq<Seed>, n: nat, sources: seq<Source>, p: PoolState)
    requires Routed(net)
  {
    && n <= |seeds|
    && Consistent(net, sources, p) && Balanced(p, -1)
    && |sources| == n && (forall i :: 0 <= i < n ==> sources[i].id == i) && OneSourceEach(sources)
    && (forall i :: 0 <= i < n ==> IsSeeded(sources[i], seeds[i], p))
    && Owed(net, sources, p) == multiset(SeedLine(net, seeds[..n]))
    && Pending(net, sources, p) <= SeedEffort(net, seeds[..n])
    && (Synchronous(net) && (forall i :: 0 <= i < n ==> SeedAtOnce(seeds[i])) ==>
          AtOnce(net, sources, p) && Stack(net, sources) == SeedLine(net, seeds[..n]))
  }

  ghost function Sprout(seed: Seed): InFlight {
    InFlight(Bare(Generator(seed.parallel, seed.elements)), 0, seed.pipe, seed.meta)
  }

  lemma LineGrows(net: Network, seeds: seq<Seed>, n: nat)
    requires Routed(net) && n < |seeds|
    ensures SeedLine(net, seeds[..n + 1]) == SeedYields(net, seeds[n]) + SeedLine(net, seeds[..n])
    ensures multiset(SeedLine(net, seeds[..n + 1])) == InFlightBag(net, Sprout(seeds[n]))
            + multiset(SeedLine(net, seeds[..n]))
    ensures SeedEffort(net, seeds[..n + 1]) == InFlightEffort(net, Sprout(seeds[n])) + SeedEffort(net, seeds[..n])
  {
    assert seeds[..n + 1][..n] == seeds[..n];
  }

  lemma SowListed(net: Network, seeds: seq<Seed>, n: nat, sources: seq<Source>, p: PoolState)
    requires Routed(net) && SownSources(net, seeds, n, sources, p) && n < |seeds|
    requires Located(net, 0, seeds[n].pipe) && !seeds[n].parallel
    ensures SownSources(net, seeds, n + 1,
                        sources + [Source(n, Listed(seeds[n].elements), 0, seeds[n].pipe, seeds[n].meta)], p)
  {
    hide Consistent, Owed, Balanced, SeedLine, SeedEffort, Yields, AtOnce, Stack, Synchronous, Routed, Pending,
         InFlightBag,
         InFlightEffort;
    var s := Source(n, Listed(seeds[n].elements), 0, seeds[n].pipe, seeds[n].meta);
    assert OneSourceEach(sources + [s]);
    AfterAppend(net, sources, p, s, Sprout(seeds[n]));
    LineGrows(net, seeds, n);
    StackGrows(net, sources, s, p);
  }

  lemma StackGrows(net: Network, sources: seq<Source>, s: Source, p: PoolState)
    requires Routed(net)
    ensures Stack(net, sources + [s]) == Yields(net, s) + Stack(net, sources)
    ensures s.stream.Listed? ==> Yields(net, s) == FlattenAll(net, s.stream.rest, s.step, s.pipe, s.meta)
    ensures AtOnce(net, sources, p) && StreamAtOnce(s.stream) ==> AtOnce(net, sources + [s], p)
  {
    assert (sources + [s])[..|sources|] == sources;
  }

  lemma SowParallel(net: Network, seeds: seq<Seed>, n: nat, sources: seq<Source>, p: PoolState)
    requires Routed(net) && SownSources(net, seeds, n, sources, p) && n < |seeds|
    requires Located(net, 0, seeds[n].pipe) && seeds[n].parallel
    ensures SownSources(net, seeds, n + 1,
                        sources + [Source(n, Wrapped(|p.closures|), 0, seeds[n].pipe, seeds[n].meta)],
                        AddClosure(p, seeds[n].elements, 0, seeds[n].pipe, seeds[n].meta))
  {
    hide Consistent, Owed, Balanced, SeedLine, SeedEffort, Yields, AtOnce, Stack, Synchronous, Routed, Pending,
         InFlightBag,
         InFlightEffort, AddClosure;
    CellsThere(net, sources, p);
    NewCell(sources, p);
    SeededStill(sources, seeds, n, p);
    AfterAppendParallel(net, sources, p, n, Sprout(seeds[n]));
    LineGrows(net, seeds, n);
    assert !SeedAtOnce(seeds[n]);
  }

  /** A future that is done is taken before anything else is. */
  lemma DoneIsTaken(p: PoolState, mid: PoolState, i: nat, q: PoolState, r: Option<InFlight>)
    requires Sound(p) && Worked(p, mid) && FirstDoneResolved(mid, i, q, r)
    ensures |q.futures| <= |p.futures| && (SomeDone(p) ==> |q.futures| < |p.futures|)
    ensures p.futures == [] ==> r == None
  {
    var es :| Workers(p, es) == mid;
    WorkersKeepSound(p, es);
    if SomeDone(p) {
      var j :| 0 <= j < |p.futures| && p.futures[j].phase.Done?;
      assert SameFuture(p.futures[j], mid.futures[j]);
    }
  }

  lemma FuturesStay(p: PoolState, q: PoolState)
    requires Sound(p) && Worked(p, q)
    ensures |q.futures| == |p.futures|
  {
    var es :| Workers(p, es) == q;
    WorkersKeepSound(p, es);
  }

  lemma StaysAlike(p: PoolState, q: PoolState)
    requires Sound(p) && Worked(p, q)
    ensures Sound(q) && Alike(p, q)
  {
    var es :| Workers(p, es) == q;
    WorkersKeepSound(p, es);
  }

  lemma EnteringSound(s: Source, p: PoolState)
    requires Sound(p)
    ensures Sound(Entering(s, p)) && Entering(s, p).usedSlots == p.usedSlots
  {
    var q := Entering(s, p);
    if q != p {
      forall f | f in q.futures && f.phase.Queued? && f.phase.task.Pull? ensures SameRoute(q, f, f.phase.task.cell) {
        assert SameRoute(p, f, f.phase.task.cell);
      }
      assert p.closures[s.stream.cell] in p.closures;
    }
  }

  lemma OneFutureLess(p: PoolState, i: nat, q: PoolState, r: Option<InFlight>)
    requires ResolvedAt(p, i, q, r)
    ensures |q.futures| < |p.futures|
  {
  }

  lemma PollKeepsFutures(sources: seq<Source>, mid: PoolState, i: nat)
    requires i < |sources|
    ensures AfterPollPool(sources, mid, i).futures == mid.futures
  {
  }

  /** What a caller can see of the iterator: what it still owes, how much work is left, whether it
      serves a line in order and which, whether sources take turns, the order in which they are
      polled, the sources and the pool. */
  datatype View = View(debt: multiset<PipeItem>, load: nat, inOrder: bool, line: seq<PipeItem>,
                       turns: bool, ring: Ring, sources: seq<Source>, pool: PoolState)

  datatype NextResult = Returned(item: PipeItem) | StopIteration | StillWaiting

  class PipeIterator {
    const net: Network
    const fifo: bool
    const initialIds: nat
    const pool: FuturesPool
    var sources: seq<Source>
    var currentSourceIndex: nat
    var initialSourcesCount: int
    var nextId: nat

    /** The invariant while `held` is in hand. */
    ghost predicate Holding(held: Option<InFlight>)
      reads this`sources, this`initialSourcesCount, this`nextId, pool
    {
      && Routed(net) && pool.Valid()
      && Consistent(net, sources, pool.State())
      && InitialFirst(sources, initialSourcesCount, initialIds, nextId)
      && HeldFits(net, held, pool.State())
      && Balanced(pool.State(), Hand(held))
    }

    ghost predicate Valid()
      reads this, pool
    {
      Holding(None) && currentSourceIndex <= |sources|
    }

    /** What has still to be returned: the item in hand and all that sources and pool owe. */
    ghost function Debt(held: Option<InFlight>): multiset<PipeItem>
      requires Routed(net)
      reads this`sources, pool
    {
      Owed(net, sources, pool.State()) + HeldBag(net, held)
    }

    ghost function Load(held: Option<InFlight>): nat
      requires Routed(net)
      reads this`sources, pool
    {
      Pending(net, sources, pool.State()) + HeldEffort(net, held)
    }

    /** Fifo mode on a synchronous network. */
    ghost predicate InOrder()
      reads this`sources, pool
    {
      fifo && AtOnce(net, sources, pool.State())
    }

    ghost function Line(held: Option<InFlight>): seq<PipeItem>
      requires Routed(net)
      reads this`sources, pool
    {
      HeldFlat(net, held) + Stack(net, sources)
    }

    /** `held` is in hand, nothing of `debt` was lost or duplicated, and work never grew. */
    ghost predicate Settled(debt: multiset<PipeItem>, load: nat, held: Option<InFlight>)
      reads this`sources, this`initialSourcesCount, this`nextId, pool
    {
      && Holding(held)
      && Debt(held) == debt
      && Load(held) <= load
      && (held.Some? ==> Load(held) < load)
    }

    /** The item in hand and the sources yield exactly `line`, in this order. */
    ghost predicate Aligned(line: seq<PipeItem>, held: Option<InFlight>)
      requires Routed(net)
      reads this`sources, pool
    {
      InOrder() && HeldAtOnce(held) && Line(held) == line
    }

    /** Round robin applies: not fifo mode, and not too many sources added while running. */
    predicate TakesTurns()
      reads this`sources, this`initialSourcesCount
    {
      !fifo && |sources| - initialSourcesCount < pool.maxParallelItems
    }

    /** The source to be polled first: the one before the last one polled, or else the newest. */
    function FirstPolled(): nat
      reads this
    {
      if TakesTurns() && currentSourceIndex > 0 then currentSourceIndex - 1
      else if sources != [] then |sources| - 1 else 0
    }

    constructor (net: Network, fifo: bool, maxParallelItems: nat, diligent: bool, seeds: seq<Seed>)
      requires Routed(net) && maxParallelItems >= 1
      requires forall seed :: seed in seeds ==> Located(net, 0, seed.pipe)
      ensures Valid() && fresh(pool)
      ensures this.net == net && this.fifo == fifo
      ensures |sources| == initialSourcesCount == |seeds| && currentSourceIndex == 0
      ensures forall i :: 0 <= i < |seeds| ==> IsSeeded(sources[i], seeds[i], pool.State())
      ensures pool.maxParallelItems == maxParallelItems && pool.diligent == diligent
      ensures Debt(None) == multiset(SeedLine(net, seeds)) && Load(None) <= SeedEffort(net, seeds)
      ensures fifo && Synchronous(net) && (forall seed :: seed in seeds ==> SeedAtOnce(seed)) ==>
                InOrder() && Line(None) == SeedLine(net, seeds)
    {
      this.net, this.fifo, this.initialIds := net, fifo, |seeds|;
      this.pool := new FuturesPool(maxParallelItems, diligent);
      sources, currentSourceIndex, initialSourcesCount, nextId := [], 0, |seeds|, |seeds|;
      new;
      hide *;
      NothingSown(seeds);
      for n := 0 to |seeds|
        invariant fresh(pool) && Sown(seeds, n)
      {
        AddSeed(seeds, n);
      }
      AllSown(seeds);
    }

    /** The first `n` seeds are sources. */
    ghost predicate Sown(seeds: seq<Seed>, n: nat)
      reads this, pool
    {
      && Routed(net) && pool.Valid() && n <= |seeds|
      && (forall seed :: seed in seeds ==> Located(net, 0, seed.pipe))
      && currentSourceIndex == 0 && initialSourcesCount == nextId == |seeds| == initialIds
      && SownSources(net, seeds, n, sources, pool.State())
    }

    lemma NothingSown(seeds: seq<Seed>)
      requires Routed(net) && pool.Valid() && pool.State() == PoolState([], 0, [])
      requires forall seed :: seed in seeds ==> Located(net, 0, seed.pipe)
      requires sources == [] && currentSourceIndex == 0 && initialSourcesCount == nextId == |seeds| == initialIds
      ensures Sown(seeds, 0)
    {
    }

    lemma AllSown(seeds: seq<Seed>)
      requires Sown(seeds, |seeds|)
      ensures Valid() && Debt(None) == multiset(SeedLine(net, seeds)) && Load(None) <= SeedEffort(net, seeds)
      ensures |sources| == initialSourcesCount == |seeds| && currentSourceIndex == 0
      ensures forall i :: 0 <= i < |seeds| ==> IsSeeded(sources[i], seeds[i], pool.State())
      ensures fifo && Synchronous(net) && (forall seed :: seed in seeds ==> SeedAtOnce(seed)) ==>
                InOrder() && Line(None) == SeedLine(net, seeds)
    {
      hide Consistent, Owed, Pending, Balanced, SeedLine, SeedEffort, AtOnce, Stack, Synchronous, Routed, Debt, Load,
           Line;
      assert seeds[..|seeds|] == seeds;
      OpenAccounts();
    }

    /** The generator of a root pipe becomes a source. */
    method AddSeed(seeds: seq<Seed>, n: nat)
      requires Sown(seeds, n) && n < |seeds|
      modifies this`sources, pool
      ensures Sown(seeds, n + 1)
    {
      hide SownSources, SeedLine, Routed, Located;
      var seed := seeds[n];
      assert seed in seeds;
      if seed.parallel {
        SowParallel(net, seeds, n, sources, pool.State());
        ghost var p0 := pool.State();
        sources := sources + [Source(n, Wrapped(|pool.closures|), 0, seed.pipe, seed.meta)];
        pool.closures := pool.closures + [Closure(Fresh(seed.elements), 0, seed.pipe, seed.meta)];
        assert pool.State() == AddClosure(p0, seed.elements, 0, seed.pipe, seed.meta);
      } else {
        SowListed(net, seeds, n, sources, pool.State());
        sources := sources + [Source(n, Listed(seed.elements), 0, seed.pipe, seed.meta)];
      }
    }

    /** `next` on the generator of a source. The workers may act before and after the outer test of a
        wrapper; `mid` is the pool when it makes the inner one. */
    method NextOf(i: nat) returns (r: Pulled, ghost mid: PoolState)
      requires i < |sources|
      requires sources[i].stream.Wrapped? ==> sources[i].stream.cell < |pool.closures|
      requires pool.Valid()
      modifies this`sources, pool
      ensures Reached(old(sources[i]), old(pool.State()), mid)
      ensures sources == AfterPollSources(old(sources), mid, i)
      ensures pool.State() == AfterPollPool(old(sources), mid, i)
      ensures r == Advance(old(sources[i]), CellsOf(old(sources[i]), mid)).2
    {
      var s := sources[i];
      PassOuterTest(s);
      mid := pool.State();
      match s.stream {
        case Listed(rest) =>
          if rest == [] {
            r := Ended;
          } else {
            sources := sources[i := s.(stream := Listed(rest[1..]))];
            match rest[0] {
              case Nothing => r := Absent;
              case Plain(item) => r := Got(InFlight(Bare(item), s.step, s.pipe, s.meta));
              case Tagged(item, own) => r := Got(InFlight(Bare(item), s.step, s.pipe, own));
            }
          }
        case Forking(data, targets) =>
          if targets == [] {
            r := Ended;
          } else {
            sources := sources[i := s.(stream := Forking(data, targets[1..]))];
            r := Got(InFlight(Bare(Value(data)), targets[0].step, targets[0].pipe, s.meta));
          }
        case Wrapped(k) =>
          var (cells, polled) := Poll(pool.closures[k].cells);
          pool.closures := pool.closures[k := pool.closures[k].(cells := cells)];
          match polled {
            case Stopped => r := Ended;
            case NotReady => r := Absent;
            case Emitted => r := Got(InFlight(CallInto(k), s.step, s.pipe, s.meta));
          }
      }
    }

    /** The outer test of a wrapper, with what the workers do before and after it. */
    method PassOuterTest(s: Source)
      requires s.stream.Wrapped? ==> s.stream.cell < |pool.closures|
      requires pool.Valid()
      modifies pool
      ensures pool.Valid() && Reached(s, old(pool.State()), pool.State())
      ensures |pool.closures| == |old(pool.closures)|
    {
      pool.RunWorkers();
      ghost var m := pool.State();
      StaysAlike(old(pool.State()), m);
      if s.stream.Wrapped? {
        var k := s.stream.cell;
        EnteringSound(s, m);
        pool.closures := pool.closures[k := pool.closures[k].(cells := Enter(pool.closures[k].cells))];
      }
      assert pool.State() == Entering(s, m);
      pool.RunWorkers();
      StaysAlike(Entering(s, m), pool.State());
    }

    /** Polls a source. */
    method PollSource(i: nat) returns (r: Pulled)
      requires Holding(None) && i < |sources|
      modifies this`sources, pool
      ensures Settled(old(Debt(None)), old(Load(None)), PulledItem(r))
      ensures |sources| == |old(sources)| && Ids(sources) == old(Ids(sources))
      ensures r.Ended? ==> Advance(sources[i], CellsOf(sources[i], pool.State())).2 == Ended
      ensures old(InOrder()) && i == |sources| - 1 ==>
                && !r.Absent? && Aligned(old(Line(None)), PulledItem(r))
                && (r.Ended? ==> Stack(net, sources[..i]) == old(Line(None)))
      ensures |pool.futures| == |old(pool.futures)|
      ensures PolledAt(old(sources), old(pool.State()), i, sources, pool.State(), r)
      ensures r.Absent? ==> Load(None) < old(Load(None)) || pool.futures != []
    {
      hide *;
      OpenAccounts();
      OpenSource(i);
      FuturesCounted();
      ghost var p0, sources0, debt, load, line := pool.State(), sources, Debt(None), Load(None), Line(None);
      ghost var inOrder := InOrder() && i == |sources| - 1;
      if inOrder {
        OpenInOrder();
      }
      ghost var mid;
      r, mid := NextOf(i);
      AfterReaching(net, sources0, p0, mid, sources0[i]);
      PollKeepsFutures(sources0, mid, i);
      FuturesCounted();
      AfterPoll(net, sources0, p0, mid, i);
      OneEach(sources0, initialSourcesCount, initialIds, nextId);
      PolledThere(sources0, p0, mid, i);
      EndedAfterPoll(sources0, mid, i);
      IdentitiesKept(sources0, mid, i, initialSourcesCount, initialIds, nextId);
      Settle(sources0, p0, PulledItem(r), debt, load);
      if inOrder {
        AlignedAfterPoll(sources0, p0, mid, i, r, line);
      }
      if r.Absent? {
        OpenSettledNothing(debt, load, r);
        OpenAccounts();
      }
    }

    lemma OpenSettledNothing(debt: multiset<PipeItem>, load: nat, r: Pulled)
      requires r.Absent? && Settled(debt, load, PulledItem(r))
      ensures Holding(None)
    {
    }

    lemma FuturesCounted()
      ensures pool.State().futures == pool.futures
    {
    }

    /** What a caller can see of the iterator before a call. */
    ghost function Look(): View
      requires Routed(net)
      reads this, pool
    {
      View(Debt(None), Load(None), InOrder(), Line(None),
           TakesTurns(), Ring(Ids(sources), if TakesTurns() then currentSourceIndex else |sources|), sources,
           pool.State())
    }

    /** Coming from `v`, `held` was taken from the sources after `polls`: nothing was lost; the line
        was served in order; the polls went round; and with nothing to take, either work went down or
        some future is expected. */
    ghost predicate Continues(v: View, polls: seq<bool>, held: Option<InFlight>)
      reads this, pool
    {
      && Settled(v.debt, v.load, held) && currentSourceIndex <= |sources|
      && (v.inOrder ==> Aligned(v.line, held) && (held.None? ==> sources == []))
      && (v.turns ==> Turned(v.ring, polls, Ring(Ids(sources), currentSourceIndex), held.Some?))
      && (held.None? && sources != [] ==> Load(None) < v.load || pool.futures != [])
    }

    /** Coming from `v`, the sources `polled` were asked in this order. If they take turns it is the
        order of the ring. An item came from the one asked last, and none asked before had one ready;
        without an item none that was asked had one ready, and the last round asked every source that
        is left exactly once. */
    ghost predicate Asked(v: View, polls: seq<bool>, polled: seq<nat>, held: Option<InFlight>)
      reads this`sources, this`initialSourcesCount, pool
    {
      && (v.turns ==> TakesTurns() && InRange(v.ring) && polled == Polls(v.ring, polls) && |polled| == |polls|)
      && match held
         case Some(x) => TakenFrom(v.sources, v.pool, polled, sources, pool.State(), x)
         case None =>
           && Untaken(v.sources, v.pool, polled, sources, pool.State())
           && (sources != [] ==> RoundOf(polled, Ids(sources)))
    }

    /** In a frame that began in `v`, the sources asked gave nothing. */
    ghost predicate InVain(v: View, polls: seq<bool>)
      reads this`sources, pool
    {
      && InRange(v.ring) && |Polls(v.ring, polls)| == |polls|
      && Untaken(v.sources, v.pool, Polls(v.ring, polls), sources, pool.State())
    }

    /** In a frame that began in `v`, the source at `i` is to be polled next. */
    ghost predicate Framed(v: View, polls: seq<bool>, i: nat)
      reads this`sources, this`initialSourcesCount, this`nextId, pool
    {
      && Settled(v.debt, v.load, None) && i < |sources|
      && AllAbsent(polls) && |polls| <= |sources|
      && (polls != [] ==> Load(None) < v.load || pool.futures != [])
      && (v.inOrder ==> Aligned(v.line, None) && polls == [] && i == |sources| - 1)
      && (v.turns ==> TakesTurns()) && Turning(v.ring, polls, Ring(Ids(sources), i))
    }

    /** As `Framed`, but the source at `i` has just been polled and has ended. */
    ghost predicate Dropping(v: View, polls: seq<bool>, i: nat)
      reads this`sources, this`initialSourcesCount, this`nextId, pool
    {
      && Settled(v.debt, v.load, None) && i < |sources|
      && Advance(sources[i], CellsOf(sources[i], pool.State())).2 == Ended
      && (v.inOrder ==> InOrder() && i == |sources| - 1 && Stack(net, sources[..i]) == v.line)
      && (v.turns ==> TakesTurns()) && Turning(v.ring, polls, Ring(Ids(sources), i))
    }

    /** Takes the next item from some source; one call covers the frames the original opens by
        recursion when a source has ended. `polls` records for every poll whether the source ended,
        and `polled` which source it was. */
    method GetSourceItem() returns (held: Option<InFlight>, ghost polls: seq<bool>, ghost polled: seq<nat>)
      requires Valid()
      modifies this`sources, this`currentSourceIndex, this`initialSourcesCount, pool
      ensures Continues(old(Look()), polls, held) && Asked(old(Look()), polls, polled, held)
      ensures ReadyAt(old(sources), old(FirstPolled()), old(pool.State())).Some? ==>
                held == ReadyAt(old(sources), old(FirstPolled()), old(pool.State()))
      ensures |pool.futures| == |old(pool.futures)|
      decreases |sources|, 2
    {
      hide *;
      OpenSettled();
      ghost var v := Look();
      OpenPlace();
      polls := [];
      var n := |sources|;
      // nobody is left to be asked
      if n == 0 {
        NoSources();
        NotReady(0);
        return None, [], [];
      }
      // turns are taken only outside fifo mode, and while few sources were added
      var i: nat;
      if fifo || n - initialSourcesCount >= pool.maxParallelItems {
        i := n - 1;
      } else {
        i := Back(currentSourceIndex, n);
      }
      FrameBegins(i);
      currentSourceIndex := i;
      held, polls, polled := PollSources(v);
    }

    lemma OpenPlace()
      requires Valid()
      ensures currentSourceIndex <= |sources|
      ensures TakesTurns() == (!fifo && |sources| - initialSourcesCount < pool.maxParallelItems)
      ensures FirstPolled() == if TakesTurns() && currentSourceIndex > 0 then currentSourceIndex - 1
                               else if sources != [] then |sources| - 1 else 0
    {
      hide Holding;
    }

    /** The polling loop of one frame, from the current index backwards. */
    method PollSources(ghost v: View) returns (held: Option<InFlight>, ghost polls: seq<bool>, ghost polled: seq<nat>)
      requires Framed(v, [], currentSourceIndex) && InVain(v, [])
      modifies this`sources, this`currentSourceIndex, this`initialSourcesCount, pool
      ensures Continues(v, polls, held) && Asked(v, polls, polled, held)
      ensures ReadyAt(old(sources), old(currentSourceIndex), old(pool.State())).Some? ==>
                held == ReadyAt(old(sources), old(currentSourceIndex), old(pool.State()))
      ensures |pool.futures| == |old(pool.futures)|
      decreases |sources|, 1
    {
      hide *;
      IndexFramed(v, []);
      polls := [];
      var n := |sources|;
      ghost var start := currentSourceIndex;
      var firstEvaluated: Option<nat> := None;
      while true
        invariant |sources| == n && currentSourceIndex < n && |polls| <= n
        invariant firstEvaluated == if polls == [] then None else Some(start)
        invariant currentSourceIndex == start - |polls| || currentSourceIndex == start - |polls| + n
        invariant Framed(v, polls, currentSourceIndex) && InVain(v, polls)
        invariant |pool.futures| == |old(pool.futures)|
        invariant if polls == []
                  then sources == old(sources) && pool.State() == old(pool.State()) && currentSourceIndex == start
                  else ReadyAt(old(sources), start, old(pool.State())).None?
        decreases n - |polls|
      {
        if Some(currentSourceIndex) == firstEvaluated {
          // back at the start in vain
          FrameExhausted(v, polls);
          return None, polls, Polls(v.ring, polls);
        }
        var pulled := PollInFrame(v, polls);
        match pulled {
          case Got(x) =>
            held := Some(x);
            polls := polls + [false];
            polled := Polls(v.ring, polls);
            return;
          case Absent =>
            if firstEvaluated.None? {
              firstEvaluated := Some(currentSourceIndex);
            }
            MoveBack(v, polls, currentSourceIndex);
            currentSourceIndex := Back(currentSourceIndex, n);
            polls := polls + [false];
          case Ended =>
            ghost var more, morePolled;
            held, more, morePolled := TryAnotherSource(v, polls);
            polled := Polls(v.ring, polls + [true]) + morePolled;
            polls := polls + [true] + more;
            return;
        }
      }
    }

    lemma NotReady(i: nat)
      ensures i >= |sources| ==> ReadyAt(sources, i, pool.State()).None?
    {
    }

    lemma IndexFramed(v: View, polls: seq<bool>)
      requires Framed(v, polls, currentSourceIndex)
      ensures currentSourceIndex < |sources| && InRange(v.ring)
    {
    }

    lemma FrameBegins(i: nat)
      requires Valid() && sources != []
      requires i == if TakesTurns() && currentSourceIndex > 0 then currentSourceIndex - 1 else |sources| - 1
      ensures Framed(Look(), [], i) && InVain(Look(), [])
    {
      hide *;
      OpenSettled();
      LookedAt();
      var v := Look();
      var index := if TakesTurns() then currentSourceIndex else |sources|;
      FrameOpens(sources, index);
      CloseFrame(v, i);
      NothingAsked(sources, pool.State());
      NothingPolled(v.ring);
      CloseVain(v, []);
    }

    lemma LookedAt()
      requires Valid()
      ensures
        var v := Look();
        && currentSourceIndex <= |sources| == |Ids(sources)| && InRange(v.ring)
        && v.debt == Debt(None) && v.load == Load(None) && v.inOrder == InOrder() && v.line == Line(None)
        && v.turns == TakesTurns() && v.sources == sources && v.pool == pool.State()
        && v.ring == Ring(Ids(sources), if TakesTurns() then currentSourceIndex else |sources|)
        && (v.inOrder ==> !v.turns)
    {
      hide Debt, Load, Line, Holding;
      assert Routed(net) by { OpenSettled(); }
    }

    lemma CloseFrame(v: View, i: nat)
      requires Settled(v.debt, v.load, None) && i < |sources|
      requires v.inOrder ==> Aligned(v.line, None) && i == |sources| - 1
      requires (v.turns ==> TakesTurns()) && Turning(v.ring, [], Ring(Ids(sources), i))
      ensures Framed(v, [], i)
    {
      hide Settled, Aligned, Turning;
    }

    lemma FrameExhausted(v: View, polls: seq<bool>)
      requires Framed(v, polls, currentSourceIndex) && InVain(v, polls) && |polls| == |sources|
      ensures Continues(v, polls, None) && Asked(v, polls, Polls(v.ring, polls), None)
    {
      hide Aligned, Turned, Turning, Debt, Load, Untaken, RoundOf, Consistent, Balanced, Routed;
      TurningKept(v.ring, polls, Ring(Ids(sources), currentSourceIndex));
      RoundAsked(v.ring, polls, sources, currentSourceIndex, initialSourcesCount, initialIds, nextId);
    }

    lemma MoveBack(v: View, polls: seq<bool>, i: nat)
      requires i < |sources| && Framed(v, polls, i) && |polls| < |sources| && !v.inOrder
      requires Load(None) < v.load || pool.futures != []
      ensures Framed(v, polls + [false], Back(i, |sources|))
    {
      hide Settled, Aligned, Turned, Turning, Load;
      TurningKept(v.ring, polls, Ring(Ids(sources), i));
      assert Skip(Ring(Ids(sources), i)) == Ring(Ids(sources), Back(i, |sources|));
    }

    /** Polls the source at the current index. */
    method PollInFrame(ghost v: View, ghost polls: seq<bool>) returns (pulled: Pulled)
      requires Framed(v, polls, currentSourceIndex) && InVain(v, polls)
      modifies this`sources, pool
      ensures |sources| == |old(sources)| && |pool.futures| == |old(pool.futures)|
      ensures ReadyAt(old(sources), currentSourceIndex, old(pool.State())).Some? ==>
                pulled == Got(ReadyAt(old(sources), currentSourceIndex, old(pool.State())).value)
      ensures pulled.Got? ==> Continues(v, polls + [false], Some(pulled.x))
      ensures pulled.Got? ==> Asked(v, polls + [false], Polls(v.ring, polls + [false]), Some(pulled.x))
      ensures pulled.Absent? ==> Framed(v, polls, currentSourceIndex) && InVain(v, polls + [false]) && !v.inOrder
      ensures pulled.Absent? ==> Load(None) < v.load || pool.futures != []
      ensures pulled.Ended? ==> Dropping(v, polls, currentSourceIndex) && InVain(v, polls + [true])
    {
      hide Settled, Aligned, Turned, Turning, Holding, Debt, Load, Line, InOrder, Advance, CellsOf, Stack, Ids, Routed,
           InVain, Asked, PolledAt;
      OpenUp(v.debt, v.load, v.line);
      OpenIds();
      ghost var before, sources0, p0 := Load(None), sources, pool.State();
      IndexFramed(v, polls);
      OpenVain(v, polls);
      pulled := PollSource(currentSourceIndex);
      SettledOn(v.debt, before, v.load, PulledItem(pulled));
      TurningKept(v.ring, polls, Ring(Ids(sources), currentSourceIndex));
      if v.inOrder {
        AlignedOpen(v.line, PulledItem(pulled));
      }
      AskedOneMore(v, polls, sources0, p0, currentSourceIndex, pulled);
      PolledReady(sources0, p0, currentSourceIndex, sources, pool.State(), pulled);
    }

    lemma OpenIds()
      requires Holding(None)
      ensures DistinctIds(sources)
    {
    }

    lemma AskedOneMore(v: View, polls: seq<bool>, sources0: seq<Source>, p0: PoolState, i: nat, r: Pulled)
      requires InRange(v.ring) && |Polls(v.ring, polls)| == |polls|
      requires Untaken(v.sources, v.pool, Polls(v.ring, polls), sources0, p0)
      requires DistinctIds(sources0) && PolledAt(sources0, p0, i, sources, pool.State(), r)
      requires Ids(sources) == Ids(sources0)
      requires forall ended :: Polls(v.ring, polls + [ended]) == Polls(v.ring, polls) + [Ids(sources0)[i]]
      requires v.turns ==> TakesTurns()
      ensures r.Got? ==> Asked(v, polls + [false], Polls(v.ring, polls + [false]), Some(r.x))
      ensures !r.Got? ==> InVain(v, polls + [r.Ended?])
    {
      hide Untaken, TakenFrom, DistinctIds, PolledAt, TakesTurns, Polls;
      assert i < |sources0| by { PolledInside(sources0, p0, i, sources, pool.State(), r); }
      var asked := Polls(v.ring, polls);
      assert Polls(v.ring, polls + [r.Ended?]) == asked + [sources0[i].id];
      if r.Got? {
        AskedAndGot(v.sources, v.pool, asked, sources0, p0, i, sources, pool.State(), r.x);
      } else {
        AskedInVain(v.sources, v.pool, asked, sources0, p0, i, sources, pool.State(), r);
      }
    }

    lemma AlignedOpen(line: seq<PipeItem>, held: Option<InFlight>)
      requires Routed(net) && Aligned(line, held)
      ensures InOrder()
    {
    }

    /** The source just polled has ended: it is removed and another one is tried. */
    method TryAnotherSource(ghost v: View, ghost polls: seq<bool>)
      returns (held: Option<InFlight>, ghost more: seq<bool>, ghost polled: seq<nat>)
      requires Dropping(v, polls, currentSourceIndex) && InVain(v, polls + [true])
      modifies this`sources, this`currentSourceIndex, this`initialSourcesCount, pool
      ensures Continues(v, polls + [true] + more, held)
      ensures Asked(v, polls + [true] + more, Polls(v.ring, polls + [true]) + polled, held)
      ensures |pool.futures| == |old(pool.futures)|
      decreases |sources|, 0
    {
      hide *;
      InVainRange(v, polls + [true]);
      DropSource(v, polls);
      OpenSettled();
      LookedAt();
      OpenIdsValid();
      ghost var w := Look();
      ghost var asked := polls + [true];
      OpenVain(v, asked);
      held, more, polled := GetSourceItem();
      ContinuesOn(v, asked, w, more, held);
      AskedOn(v, asked, w, more, polled, held);
    }

    lemma InVainRange(v: View, polls: seq<bool>)
      requires InVain(v, polls)
      ensures InRange(v.ring)
    {
    }

    lemma OpenVain(v: View, polls: seq<bool>)
      requires InVain(v, polls)
      ensures InRange(v.ring) && |Polls(v.ring, polls)| == |polls|
      ensures Untaken(v.sources, v.pool, Polls(v.ring, polls), sources, pool.State())
    {
    }

    lemma AskedOn(v: View, polls: seq<bool>, w: View, more: seq<bool>, polled: seq<nat>, held: Option<InFlight>)
      requires InRange(v.ring) && |Polls(v.ring, polls)| == |polls|
      requires Untaken(v.sources, v.pool, Polls(v.ring, polls), w.sources, w.pool) && DistinctIds(w.sources)
      requires v.turns ==> w.turns && Turned(v.ring, polls, w.ring, true)
      requires Asked(w, more, polled, held)
      ensures Asked(v, polls + more, Polls(v.ring, polls) + polled, held)
    {
      hide Untaken, TakenFrom, Turned, TakesTurns, Polls, DistinctIds;
      var asked := Polls(v.ring, polls);
      if v.turns {
        RingFollows(v.ring, polls, w.ring, more);
      }
      if held.Some? {
        PollOrder.TakenOn(v.sources, v.pool, asked, w.sources, w.pool, polled, sources, pool.State(), held.value);
      } else {
        UntakenOn(v.sources, v.pool, asked, w.sources, w.pool, polled, sources, pool.State());
        RoundOn(asked, polled, Ids(sources));
      }
    }

    lemma ContinuesOn(v: View, polls: seq<bool>, w: View, more: seq<bool>, held: Option<InFlight>)
      requires w.debt == v.debt && w.load <= v.load
      requires v.inOrder ==> w.inOrder && w.line == v.line
      requires v.turns ==> w.turns && Turned(v.ring, polls, w.ring, true)
      requires Continues(w, more, held)
      ensures Continues(v, polls + more, held)
    {
      hide Aligned, Turned, Debt, Load, Consistent, Balanced, Routed;
      SettledOn(v.debt, w.load, v.load, held);
      if v.turns {
        TurnedOn(v.ring, polls, w.ring, more, Ring(Ids(sources), currentSourceIndex), held.Some?);
      }
    }

    /** Removes the source at the current index, which has ended. */
    method DropSource(ghost v: View, ghost polls: seq<bool>)
      requires Dropping(v, polls, currentSourceIndex) && InVain(v, polls + [true])
      modifies this`sources, this`initialSourcesCount
      ensures |sources| == |old(sources)| - 1
      ensures Valid()
      ensures Look().debt == v.debt && Look().load <= v.load
      ensures v.inOrder ==> Look().inOrder && Look().line == v.line
      ensures v.turns ==> Look().turns && Turned(v.ring, polls + [true], Look().ring, true)
      ensures InVain(v, polls + [true]) && Look().sources == sources
    {
      hide *;
      var i := currentSourceIndex;
      OpenDropping(v, polls, i);
      OpenUp(v.debt, v.load, v.line);
      OpenAccounts();
      ghost var p, sources0 := pool.State(), sources;
      if v.inOrder {
        OpenInOrder();
      }
      InVainRange(v, polls + [true]);
      TurningKept(v.ring, polls, Ring(Ids(sources), i));
      VainAfterDrop(v, polls + [true], Polls(v.ring, polls), i);
      IdentitiesDrop(sources, i, initialSourcesCount, initialIds, nextId);
      PopAccounted(net, sources, p, i);
      sources := sources[..i] + sources[i + 1..];
      if i < initialSourcesCount {
        initialSourcesCount := initialSourcesCount - 1;
      }
      Settle(sources0, p, None, v.debt, v.load);
      CloseVain(v, polls + [true]);
      OpenUp(v.debt, v.load, v.line);
      if v.inOrder {
        AlignedAfterDrop(sources0, i);
        OpenUp(v.debt, v.load, v.line);
      }
      BackToRest();
      LookedAt();
      OpenPlace();
      assert v.turns ==> Ring(Ids(sources), i) == Look().ring;
    }

    lemma OpenDropping(v: View, polls: seq<bool>, i: nat)
      requires Dropping(v, polls, i)
      ensures Settled(v.debt, v.load, None) && i < |sources|
      ensures Advance(sources[i], CellsOf(sources[i], pool.State())).2 == Ended
      ensures v.inOrder ==> InOrder() && i == |sources| - 1 && Stack(net, sources[..i]) == v.line
      ensures v.turns ==> !fifo && |sources| - initialSourcesCount < pool.maxParallelItems
      ensures Turning(v.ring, polls, Ring(Ids(sources), i))
    {
      hide Settled, Turning, Advance, CellsOf, Stack, InOrder;
    }

    lemma BackToRest()
      requires Holding(None) && currentSourceIndex <= |sources|
      ensures Valid()
    {
      hide Holding;
    }

    lemma VainAfterDrop(v: View, polls: seq<bool>, asked: seq<nat>, i: nat)
      requires i < |sources| && InVain(v, polls) && Polls(v.ring, polls) == asked + [Ids(sources)[i]]
      ensures InRange(v.ring) && |Polls(v.ring, polls)| == |polls|
      ensures Untaken(v.sources, v.pool, Polls(v.ring, polls), sources[..i] + sources[i + 1..], pool.State())
    {
      hide Untaken, Polls;
      assert sources[i].id in asked + [Ids(sources)[i]];
      DroppedAsked(v.sources, v.pool, Polls(v.ring, polls), sources, pool.State(), i);
    }

    lemma CloseVain(v: View, polls: seq<bool>)
      requires InRange(v.ring) && |Polls(v.ring, polls)| == |polls|
      requires Untaken(v.sources, v.pool, Polls(v.ring, polls), sources, pool.State())
      ensures InVain(v, polls)
    {
    }

    lemma AlignedAfterDrop(sources0: seq<Source>, i: nat)
      requires Routed(net) && fifo && AtOnce(net, sources0, pool.State())
      requires i == |sources0| - 1 && sources == sources0[..i] + sources0[i + 1..]
      ensures Aligned(Stack(net, sources0[..i]), None)
    {
      assert sources == sources0[..i];
      assert HeldFlat(net, None) + Stack(net, sources) == Stack(net, sources);
    }

    lemma OpenSettled()
      requires Valid()
      ensures Routed(net) && Settled(Debt(None), Load(None), None)
      ensures InOrder() ==> Aligned(Line(None), None)
    {
    }

    lemma OpenUp(debt: multiset<PipeItem>, load: nat, line: seq<PipeItem>)
      requires Settled(debt, load, None)
      ensures Routed(net) && Holding(None) && Debt(None) == debt && Load(None) <= load
      ensures Aligned(line, None) ==> InOrder() && Line(None) == line
    {
    }

    lemma SettledOn(debt: multiset<PipeItem>, before: nat, load: nat, held: Option<InFlight>)
      requires before <= load && Settled(debt, before, held)
      ensures Settled(debt, load, held)
    {
    }

    // -------------------------------------------------------------------------------------
    // One cycle of turns

    /** In a cycle that began in `v`, with the pool now being `p`: after these polls, every source that had
        an item ready has been served, or has not been asked yet and has it ready still; if the cycle is
        over, all of them have been served. */
    ghost predicate Cycling(v: View, polls: seq<bool>, taken: seq<InFlight>, from: seq<nat>, over: bool, p: PoolState)
      reads this`sources, this`initialSourcesCount, this`currentSourceIndex
    {
      && InRange(v.ring) && |from| == |taken|
      && (!over ==> TakesTurns() && currentSourceIndex <= |sources|
                    && Turned(v.ring, polls, Ring(Ids(sources), currentSourceIndex), true))
      && forall s :: s in v.sources && Ready(s, v.pool).Some? ==>
           Delivered(s, v.pool, taken, from) || (!over && Waits(v, polls, sources, p, s))
    }

    /** One cycle: as many items are taken as there are sources. Calls go to the pool and other items
        are handed over, so no source is added. Whatever the other sources and the workers do, every
        source that has an item ready when the cycle begins has it taken. */
    method TakeCycle() returns (taken: seq<InFlight>, ghost from: seq<nat>)
      requires Valid() && TakesTurns()
      modifies this`sources, this`currentSourceIndex, this`initialSourcesCount, pool
      ensures Valid() && |from| == |taken| <= old(|sources|)
      ensures forall s :: s in old(sources) && Ready(s, old(pool.State())).Some? ==>
                Delivered(s, old(pool.State()), taken, from)
    {
      hide *;
      OpenSettled();
      ghost var v, polls := Look(), [];
      taken, from := [], [];
      CycleBegins();
      LookedAt();
      OpenIdsValid();
      var n, over := |sources|, false;
      while |taken| < n && !over
        invariant Valid() && Cycling(v, polls, taken, from, over, pool.State())
        invariant |taken| <= n && |from| == |taken| && (!over ==> |polls| >= |taken|)
        decreases n - |taken|, !over
      {
        OpenSettled();
        ghost var w := Look();
        LookedAt();
        OpenIdsValid();
        OpenCycling(v, polls, taken, from);
        var held;
        ghost var more, polled;
        held, more, polled := GetSourceItem();
        CycleGoesOn(v, polls, w, more, polled, held, taken, from);
        polls := polls + more;
        if held.None? {
          over := true;
          OpenContinues(w, more, held);
          BackToRest();
        } else {
          taken, from := taken + [held.value], from + [polled[|polled| - 1]];
          OpenContinues(w, more, held);
          ghost var p := pool.State();
          HandOver(held.value);
          CycleStays(v, polls, taken, from, p, pool.State());
        }
      }
      CycleEnds(v, polls, taken, from, over);
    }

    /** A call goes to the pool; any other item is handed over. What sources have ready stays ready. */
    method HandOver(x: InFlight)
      requires Holding(Some(x)) && currentSourceIndex <= |sources|
      modifies pool
      ensures Valid() && KeepsReady(sources, old(pool.State()), -1, pool.State())
    {
      hide *;
      AllKept(sources, pool.State());
      if x.payload.CallInto? {
        OpenOwing(x);
        ghost var debt := Debt(Some(x));
        TaskOfCall(x);
        SubmitItem(x, Task.Pull(x.payload.cell), debt);
        OpenOwingNone(debt);
      } else {
        ItemGone(x);
      }
      BackToRest();
    }

    lemma OpenOwing(x: InFlight)
      requires Holding(Some(x))
      ensures Routed(net) && Owing(Debt(Some(x)), Some(x))
    {
    }

    lemma OpenOwingNone(debt: multiset<PipeItem>)
      requires Owing(debt, None)
      ensures Holding(None)
    {
    }

    lemma ItemGone(x: InFlight)
      requires Holding(Some(x)) && !x.payload.CallInto?
      ensures Holding(None)
    {
      NothingHeld(net, pool.State());
      hide Consistent, Balanced, InitialFirst, Routed, HeldFits;
    }

    lemma OpenIdsValid()
      requires Valid()
      ensures DistinctIds(sources) && RoundRobin.Distinct(Ids(sources))
    {
      hide Routed, Consistent, Balanced;
    }

    lemma OpenContinues(v: View, polls: seq<bool>, held: Option<InFlight>)
      requires Continues(v, polls, held)
      ensures Holding(held) && currentSourceIndex <= |sources|
    {
      hide Holding, Aligned, Turned, Debt, Load;
    }

    lemma CycleBegins()
      requires Valid() && TakesTurns()
      ensures Cycling(Look(), [], [], [], false, pool.State())
    {
      hide Delivered, Ready;
      LookedAt();
      NothingPolled(Look().ring);
    }

    lemma OpenCycling(v: View, polls: seq<bool>, taken: seq<InFlight>, from: seq<nat>)
      requires Cycling(v, polls, taken, from, false, pool.State())
      ensures TakesTurns() && InRange(v.ring) && Turned(v.ring, polls, Ring(Ids(sources), currentSourceIndex), true)
      ensures forall s :: s in v.sources && Ready(s, v.pool).Some? ==>
                Delivered(s, v.pool, taken, from) || Waits(v, polls, sources, pool.State(), s)
    {
      hide Delivered, Ready, Turned, Waits;
    }

    lemma CycleGoesOn(v: View, polls: seq<bool>, w: View, more: seq<bool>, polled: seq<nat>, held: Option<InFlight>,
                      taken: seq<InFlight>, from: seq<nat>)
      requires Continues(w, more, held) && Asked(w, more, polled, held) && w.turns
      requires InRange(v.ring) && |from| == |taken| && Turned(v.ring, polls, w.ring, true)
      requires forall s :: s in v.sources && Ready(s, v.pool).Some? ==>
                 Delivered(s, v.pool, taken, from) || Waits(v, polls, w.sources, w.pool, s)
      ensures held.None? ==> Cycling(v, polls + more, taken, from, true, pool.State())
      ensures held.Some? ==> polled != [] && |more| >= 1
      ensures held.Some? ==>
                Cycling(v, polls + more, taken + [held.value], from + [polled[|polled| - 1]], false, pool.State())
    {
      hide Settled, Aligned, Turned, Ready, Delivered, Skipped, Polls, Gives;
      TurnedOn(v.ring, polls, w.ring, more, Ring(Ids(sources), currentSourceIndex), held.Some?);
      forall s | s in v.sources && Ready(s, v.pool).Some?
        ensures held.None? ==> Delivered(s, v.pool, taken, from)
        ensures held.Some? ==> Delivered(s, v.pool, taken + [held.value], from + [polled[|polled| - 1]])
                               || Waits(v, polls + more, sources, pool.State(), s)
      {
        if held.Some? {
          DeliveredStill(s, v.pool, taken, from, held.value, polled[|polled| - 1]);
          if !Delivered(s, v.pool, taken, from) && s.id in polled {
            ReadyIsServed(w.sources, w.pool, polled, sources, pool.State(), held.value, s);
          }
        } else if !Delivered(s, v.pool, taken, from) {
          NotOverlooked(w.sources, w.pool, polled, sources, pool.State(), s);
        }
      }
    }

    lemma CycleStays(v: View, polls: seq<bool>, taken: seq<InFlight>, from: seq<nat>, p: PoolState, q: PoolState)
      requires Cycling(v, polls, taken, from, false, p) && KeepsReady(sources, p, -1, q)
      ensures Cycling(v, polls, taken, from, false, q)
    {
      hide Delivered, Ready, Turned, Polls;
    }

    lemma CycleEnds(v: View, polls: seq<bool>, taken: seq<InFlight>, from: seq<nat>, over: bool)
      requires Cycling(v, polls, taken, from, over, pool.State())
      requires v.ring.ids == Ids(v.sources) && RoundRobin.Distinct(v.ring.ids)
      requires !over ==> |polls| >= |v.sources|
      ensures forall s :: s in v.sources && Ready(s, v.pool).Some? ==> Delivered(s, v.pool, taken, from)
    {
      hide Turned, Ready, Delivered, Polls, TakesTurns;
      forall s | s in v.sources && Ready(s, v.pool).Some? ensures Delivered(s, v.pool, taken, from) {
        if !Delivered(s, v.pool, taken, from) {
          var i :| 0 <= i < |v.sources| && v.sources[i] == s;
          assert v.ring.ids[i] == s.id;
          ServedWithinOneCycle(v.ring, s.id, polls);
        }
      }
    }

    // -------------------------------------------------------------------------------------
    // The item in hand

    /** `held` is in hand and `debt` is what has still to be returned. */
    ghost predicate Owing(debt: multiset<PipeItem>, held: Option<InFlight>)
      reads this`sources, this`initialSourcesCount, this`nextId, pool
    {
      Holding(held) && Debt(held) == debt
    }

    /** A generator in hand becomes the newest source. */
    method AppendSource(x: InFlight, stream: Stream, ghost debt: multiset<PipeItem>, ghost line: seq<PipeItem>)
      requires Owing(debt, Some(x))
      requires Becomes(x, stream)
      modifies this`sources, this`nextId
      ensures Owing(debt, None) && Load(None) < old(Load(Some(x)))
      ensures old(Aligned(line, Some(x))) ==> Aligned(line, None)
      ensures |sources| >= |old(sources)|
    {
      hide *;
      OpenHeld(debt, x);
      ghost var sources0 := sources;
      ghost var aligned := Aligned(line, Some(x));
      var s := Source(nextId, stream, x.step, x.pipe, x.meta);
      SourceAppended(net, sources, pool.State(), s, x);
      NotWrapped(x, stream);
      IdentitiesAppend(sources, s, initialSourcesCount, initialIds, nextId);
      if aligned {
        LineAppended(x, s, line);
      }
      sources := sources + [s];
      nextId := nextId + 1;
      CloseHeld(sources0, pool.State(), x, None, debt);
      if aligned {
        CloseLine(line, None);
      }
    }

    /** A parallelized generator in hand becomes the newest source, with cells of its own. */
    method AppendParallelSource(x: InFlight, elements: seq<Yield>, ghost debt: multiset<PipeItem>)
      requires Owing(debt, Some(x))
      requires x.payload == Bare(Generator(true, elements))
      modifies this`sources, this`nextId, pool`closures
      ensures Owing(debt, None) && Load(None) < old(Load(Some(x)))
      ensures |sources| >= |old(sources)|
    {
      hide *;
      OpenHeld(debt, x);
      ghost var sources0, p0 := sources, pool.State();
      CellsThere(net, sources, p0);
      NewCell(sources, p0);
      var s := Source(nextId, Wrapped(|pool.closures|), x.step, x.pipe, x.meta);
      CellsCounted();
      ParallelAppended(net, sources, p0, nextId, x);
      IdentitiesAppend(sources, s, initialSourcesCount, initialIds, nextId);
      sources := sources + [s];
      nextId := nextId + 1;
      pool.Wrap(elements, x.step, x.pipe, x.meta);
      CloseHeld(sources0, p0, x, None, debt);
    }

    lemma CellsCounted()
      ensures |pool.closures| == |pool.State().closures|
    {
    }

    /** A deferred item or a call in hand goes to the pool. */
    method SubmitItem(x: InFlight, task: Task, ghost debt: multiset<PipeItem>)
      requires Owing(debt, Some(x)) && TaskOf(x) == Some(task)
      modifies pool
      ensures Owing(debt, None) && Load(None) < old(Load(Some(x)))
      ensures KeepsReady(sources, old(pool.State()), -1, pool.State())
    {
      hide *;
      OpenHeld(debt, x);
      ghost var p0 := pool.State();
      SubmissionFits(net, x, p0);
      pool.Submit(task, x.step, x.pipe, x.meta);
      ItemSubmitted(net, sources, p0, x, pool.State());
      SubmittedKeepsReady(net, sources, p0, x, pool.State());
      CloseHeld(sources, p0, x, None, debt);
    }

    /** A value in hand is given to the next step of its pipe. */
    method StepItem(x: InFlight, data: Data, ghost debt: multiset<PipeItem>, ghost line: seq<PipeItem>)
      returns (held: Option<InFlight>)
      requires Owing(debt, Some(x)) && x.payload == Bare(Value(data))
      requires Located(net, x.step, x.pipe) && x.step < |net.pipes[x.pipe]| - 1
      ensures Owing(debt, held) && Load(held) < Load(Some(x))
      ensures Aligned(line, Some(x)) ==> Aligned(line, held)
    {
      match net.pipes[x.pipe][x.step + 1] {
        case Transform(f) =>
          match f(data, x.meta) {
            case Nothing =>
              held := None;
            case Plain(item) =>
              held := Some(InFlight(Bare(item), x.step + 1, x.pipe, x.meta));
            case Tagged(item, own) =>
              held := Some(InFlight(Bare(item), x.step + 1, x.pipe, own));
          }
        case Fork(targets) =>
          held := Some(InFlight(Forked(data, targets), x.step + 1, x.pipe, x.meta));
      }
      assert held == Proceed(net, x);
      hide *;
      StepTaken(x, debt, line);
    }

    lemma StepTaken(x: InFlight, debt: multiset<PipeItem>, line: seq<PipeItem>)
      requires Owing(debt, Some(x)) && x.payload.Bare? && x.payload.item.Value?
      requires Located(net, x.step, x.pipe) && x.step < |net.pipes[x.pipe]| - 1
      ensures Owing(debt, Proceed(net, x)) && Load(Proceed(net, x)) < Load(Some(x))
      ensures Aligned(line, Some(x)) ==> Aligned(line, Proceed(net, x))
    {
      AfterProceed(net, x, pool.State());
      if Aligned(line, Some(x)) {
        ProceedAtOnce(net, x);
      }
      hide Proceed, Consistent, Owed, Pending, InFlightBag, InFlightEffort, Balanced, InitialFirst, Stack, HeldFlat,
           AtOnce,
           HeldBag, HeldEffort, HeldFits;
      assert HeldBag(net, Some(x)) == InFlightBag(net, x) && HeldEffort(net, Some(x)) == InFlightEffort(net, x) by {
        ItemHeld(net, x);
      }
    }

    lemma OpenHeld(debt: multiset<PipeItem>, x: InFlight)
      requires Owing(debt, Some(x))
      ensures Routed(net) && pool.Valid() && Consistent(net, sources, pool.State())
              && HeldFits(net, Some(x), pool.State())
      ensures Balanced(pool.State(), Hand(Some(x)))
      ensures InitialFirst(sources, initialSourcesCount, initialIds, nextId)
      ensures debt == Owed(net, sources, pool.State()) + InFlightBag(net, x)
      ensures Load(Some(x)) == Pending(net, sources, pool.State()) + InFlightEffort(net, x)
    {
    }

    lemma CloseHeld(sources0: seq<Source>, p0: PoolState, x: InFlight, held: Option<InFlight>, debt: multiset<PipeItem>)
      requires Routed(net) && pool.Valid() && Handled(net, sources0, p0, x, sources, pool.State(), held)
      requires InitialFirst(sources, initialSourcesCount, initialIds, nextId)
      requires debt == Owed(net, sources0, p0) + InFlightBag(net, x)
      ensures Owing(debt, held) && Load(held) < Pending(net, sources0, p0) + InFlightEffort(net, x)
    {
    }

    lemma LineAppended(x: InFlight, s: Source, line: seq<PipeItem>)
      requires Routed(net) && Aligned(line, Some(x)) && Becomes(x, s.stream)
      requires s.step == x.step && s.pipe == x.pipe && s.meta == x.meta
      ensures fifo && AtOnce(net, sources + [s], pool.State()) && Stack(net, sources + [s]) == line
    {
      StackGrows(net, sources, s, pool.State());
    }

    lemma CloseLine(line: seq<PipeItem>, held: Option<InFlight>)
      requires Routed(net) && fifo && AtOnce(net, sources, pool.State()) && HeldAtOnce(held)
      requires HeldFlat(net, held) + Stack(net, sources) == line || (held.None? && Stack(net, sources) == line)
      ensures Aligned(line, held)
    {
      if held.None? {
        assert HeldFlat(net, held) + Stack(net, sources) == Stack(net, sources);
      }
    }

    // -------------------------------------------------------------------------------------
    // The next item

    /** Coming from `v`, `held` was taken from the pool or from a source. */
    ghost predicate Taken(v: View, held: Option<InFlight>)
      reads this, pool
    {
      && Settled(v.debt, v.load, held) && currentSourceIndex <= |sources|
      && (v.inOrder ==> Aligned(v.line, held))
    }

    /** Takes a done future, if there is one. */
    method ResolveDone() returns (held: Option<InFlight>)
      requires Valid()
      modifies pool
      ensures Taken(old(Look()), held)
      ensures |pool.futures| <= |old(pool.futures)|
              && (old(SomeDone(pool.State())) ==> |pool.futures| < |old(pool.futures)|)
      ensures held.Some? ==> |pool.futures| < |old(pool.futures)|
      ensures KeepsReady(sources, old(pool.State()), -1, pool.State())
    {
      hide *;
      OpenValid();
      OpenAccounts();
      FuturesCounted();
      ghost var p, v := pool.State(), Look();
      held := pool.ResolveNextFutureNoWait();
      ghost var mid, i :| Worked(p, mid) && FirstDoneResolved(mid, i, pool.State(), held);
      FuturesCounted();
      DoneIsTaken(p, mid, i, pool.State(), held);
      ResolvedKeepsFree(p, mid, i, pool.State(), held);
      FuturesStay(p, mid);
      FreeKeepsReady(sources, p, pool.State());
      FirstResolved(net, sources, p, mid, i, pool.State(), held);
      CloseTaken(p, v, held);
    }

    /** Waits a while for a future to be done; diligent workers get on in the meantime. */
    method ResolveAwaited() returns (held: Option<InFlight>)
      requires Valid()
      modifies pool
      ensures Taken(old(Look()), held)
      ensures |pool.futures| <= |old(pool.futures)|
      ensures pool.diligent && old(pool.futures) != [] && held.None? ==> Load(None) < old(Load(None))
    {
      hide *;
      OpenValid();
      OpenAccounts();
      FuturesCounted();
      ghost var p, v := pool.State(), Look();
      held := pool.ResolveNextFuture();
      FuturesCounted();
      WorkedAlready(p);
      if p.futures == [] {
        NoneResolved(net, sources, p, pool.State());
      } else if SomeDone(p) {
        ghost var i :| 0 <= i < |p.futures| && FirstDoneResolved(p, i, pool.State(), held);
        FirstOneDone(p, i, pool.State(), held);
        ResolvedFuture(p, p, i, held);
      } else if mid, i :| Worked(p, mid) && ResolvedAt(mid, i, pool.State(), held) {
        ResolvedFuture(p, mid, i, held);
      } else {
        FuturesStay(p, pool.State());
        NoneResolved(net, sources, p, pool.State());
        if pool.diligent {
          BusyPending(net, sources, p, pool.State());
        }
      }
      CloseTaken(p, v, held);
      if held.None? {
        LoadOf(held);
      }
    }

    lemma ResolvedFuture(p: PoolState, mid: PoolState, i: nat, held: Option<InFlight>)
      requires Routed(net) && Consistent(net, sources, p) && Balanced(p, -1)
      requires Worked(p, mid) && ResolvedAt(mid, i, pool.State(), held)
      ensures Accounted(net, sources, p, sources, pool.State(), held) && !AtOnce(net, sources, p)
      ensures held.None? ==> Pending(net, sources, pool.State()) < Pending(net, sources, p)
      ensures |pool.State().futures| <= |p.futures|
    {
      hide *;
      AnyResolved(net, sources, p, mid, i, pool.State(), held);
      ConsistentSound(net, sources, p);
      FuturesStay(p, mid);
      OneFutureLess(mid, i, pool.State(), held);
    }

    lemma LoadOf(held: Option<InFlight>)
      requires Routed(net) && held.None?
      ensures Load(None) == Pending(net, sources, pool.State())
    {
    }

    lemma OpenValid()
      requires Valid()
      ensures Routed(net) && pool.Valid() && Holding(None) && currentSourceIndex <= |sources|
      ensures Consistent(net, sources, pool.State()) && Balanced(pool.State(), -1)
      ensures InitialFirst(sources, initialSourcesCount, initialIds, nextId)
      ensures pool.maxParallelItems >= 1 && pool.State().usedSlots <= pool.maxParallelItems
      ensures Look().debt == Owed(net, sources, pool.State()) && Look().load == Pending(net, sources, pool.State())
      ensures Look().inOrder ==> fifo && AtOnce(net, sources, pool.State()) && Look().line == Stack(net, sources)
    {
      hide Consistent, Owed, Pending, Balanced, InitialFirst, AtOnce, Stack;
      OpenAccounts();
    }

    lemma CloseTaken(p0: PoolState, v: View, held: Option<InFlight>)
      requires Routed(net) && Accounted(net, sources, p0, sources, pool.State(), held)
      requires AtOnce(net, sources, p0) ==> pool.State() == p0 && held == None
      requires pool.maxParallelItems >= 1 && p0.usedSlots <= pool.maxParallelItems
      requires InitialFirst(sources, initialSourcesCount, initialIds, nextId) && currentSourceIndex <= |sources|
      requires v.debt == Owed(net, sources, p0) && v.load == Pending(net, sources, p0)
      requires v.inOrder ==> fifo && AtOnce(net, sources, p0) && v.line == Stack(net, sources)
      ensures Taken(v, held)
    {
      Settle(sources, p0, held, v.debt, v.load);
      if v.inOrder {
        CloseLine(v.line, held);
      }
      hide Settled, Aligned, Accounted, AtOnce, Stack;
    }

    /** The accounts agree between `v` and `w`, which is later. */
    ghost predicate Later(v: View, w: View) {
      && w.debt == v.debt && w.load <= v.load
      && (v.inOrder ==> w.inOrder && w.line == v.line)
    }

    lemma ReOpen(v: View)
      requires Taken(v, None)
      ensures Valid() && Later(v, Look())
    {
      OpenUp(v.debt, v.load, v.line);
    }

    lemma TakenOn(v: View, w: View, held: Option<InFlight>)
      requires Later(v, w) && Taken(w, held)
      ensures Taken(v, held)
    {
    }

    lemma ContinuesTaken(v: View, w: View, polls: seq<bool>, held: Option<InFlight>)
      requires Later(v, w) && Continues(w, polls, held)
      ensures Taken(v, held)
      ensures v.inOrder && held.None? ==> sources == []
      ensures held.None? && sources != [] ==> Load(None) < w.load || pool.futures != []
    {
      hide Settled, Aligned, Load;
      SettledOn(v.debt, w.load, v.load, held);
    }

    lemma NothingTaken(v: View)
      requires Taken(v, None)
      ensures Load(None) <= v.load && Look().load == Load(None)
    {
    }

    lemma IdleInOrder(v: View)
      requires Taken(v, None) && v.inOrder
      ensures pool.futures == []
    {
    }

    /** A done future, or else something from a source, or else a future that is done in time. */
    method TakeItem() returns (held: Option<InFlight>)
      requires Valid()
      modifies this`sources, this`currentSourceIndex, this`initialSourcesCount, pool
      ensures Taken(old(Look()), held)
      ensures old(Look()).inOrder && held.None? ==> sources == [] && pool.futures == []
      ensures old(SomeDone(pool.State())) ==> |pool.futures| < |old(pool.futures)|
      ensures pool.diligent && held.None? && (sources != [] || pool.futures != []) ==> Load(None) < old(Load(None))
      ensures ReadyAt(old(sources), old(FirstPolled()), old(pool.State())).Some? ==>
                || |pool.futures| < |old(pool.futures)|
                || held == ReadyAt(old(sources), old(FirstPolled()), old(pool.State()))
    {
      hide *;
      OpenValid();
      ghost var v := Look();
      LookLoad();
      ghost var p, first := pool.State(), FirstPolled();
      held := ResolveDone();
      if held.None? {
        ReadyAtKept(sources, first, p, pool.State());
        ReOpen(v);
        NothingTaken(v);
        ghost var w := Look();
        ghost var polls;
        ghost var polled;
        held, polls, polled := GetSourceItem();
        ContinuesTaken(v, w, polls, held);
        if held.None? {
          ReOpen(v);
          NothingTaken(v);
          w := Look();
          held := ResolveAwaited();
          TakenOn(v, w, held);
          if held.None? {
            NothingTaken(w);
          }
        }
      }
      if v.inOrder && held.None? {
        IdleInOrder(v);
      }
    }

    lemma LookLoad()
      requires Valid()
      ensures Look().load == Load(None)
    {
    }

    /** How `r` continues from `v`: an item returned is one of those owed, the next one in line if
        they are served in order; at the end nothing is owed; and work went down with every item. */
    ghost predicate Outcome(v: View, r: NextResult)
      reads this, pool
    {
      && Valid()
      && match r
         case Returned(item) =>
           && item.pipe in net.pipes && item.step == |net.pipes[item.pipe]| - 1
           && v.debt == multiset{item} + Debt(None)
           && Load(None) < v.load
           && (v.inOrder ==> InOrder() && v.line == [item] + Line(None))
         case StopIteration =>
           && sources == [] && pool.futures == []
           && v.debt == multiset{} && (v.inOrder ==> v.line == [])
         case StillWaiting =>
           && v.debt == Debt(None) && Load(None) <= v.load && !v.inOrder
    }

    /** In the middle of a call that began in `v`, with `held` in hand. */
    ghost predicate Carrying(v: View, held: Option<InFlight>)
      reads this, pool
    {
      && Owing(v.debt, held) && Load(held) <= v.load && currentSourceIndex <= |sources|
      && (v.inOrder ==> Aligned(v.line, held))
    }

    /** The iterator's `next`. A turn in which neither pool nor sources have anything, and something
        is still expected, uses up `patience`; every other turn takes work off. With diligent workers
        it need not be more patient than there is work. */
    method Next(patience: nat) returns (r: NextResult)
      requires Valid()
      modifies this`sources, this`currentSourceIndex, this`initialSourcesCount, this`nextId, pool
      ensures Outcome(old(Look()), r)
      ensures pool.diligent && patience >= old(Load(None)) ==> r != StillWaiting
    {
      hide *;
      OpenValid();
      ghost var v := Look();
      CarryNothing();
      var held: Option<InFlight> := None;
      var left: nat := patience;
      while true
        invariant Routed(net) && Carrying(v, held)
        invariant pool.diligent && patience >= old(Load(None)) ==> left >= Load(held)
        decreases Load(held), left
      {
        // with empty hands, something has to be taken first
        if held.None? {
          PutDown(v);
          ghost var w := Look();
          held := TakeItem();
          PickUp(v, w, held);
          if held.None? {
            if pool.futures == [] && sources == [] {
              Finished(v);
              return StopIteration;
            }
            if left == 0 {
              Expecting(v);
              return StillWaiting;
            }
            left := left - 1;
            continue;
          }
        }
        var x := held.value;
        ItemLocated(v, x);
        if x.payload.Bare? && x.payload.item.Value? && x.step == |net.pipes[x.pipe]| - 1 {
          // no step is left
          Emit(v, x);
          return Returned(PipeItem(x.payload.item.data, x.step, x.pipe, x.meta));
        }
        held := Process(v, x);
      }
    }

    /** What one turn does with an item that is not yet at the end of its pipe. */
    method Process(ghost v: View, x: InFlight) returns (held: Option<InFlight>)
      requires Routed(net) && Carrying(v, Some(x)) && Located(net, x.step, x.pipe)
      requires x.payload.Bare? && x.payload.item.Value? ==> x.step != |net.pipes[x.pipe]| - 1
      modifies this`sources, this`nextId, pool
      ensures Carrying(v, held) && Load(held) < old(Load(Some(x)))
    {
      hide Carrying, Owing, Aligned, Holding, Load, Routed;
      OpenCarrying(v, x);
      held := None;
      match x.payload {
        case Bare(Generator(false, elements)) =>
          AppendSource(x, Listed(elements), v.debt, v.line);
        case Bare(Generator(true, elements)) =>
          AppendParallelSource(x, elements, v.debt);
        case Forked(data, targets) =>
          AppendSource(x, Forking(data, targets), v.debt, v.line);
        case Bare(Deferred(outcome)) =>
          SubmitItem(x, Own(outcome), v.debt);
        case CallInto(cell) =>
          SubmitItem(x, Task.Pull(cell), v.debt);
        case Bare(Value(data)) =>
          held := StepItem(x, data, v.debt, v.line);
      }
      CloseCarrying(v, held);
    }

    lemma OpenCarrying(v: View, x: InFlight)
      requires Routed(net) && Carrying(v, Some(x))
      ensures Owing(v.debt, Some(x)) && Load(Some(x)) <= v.load && currentSourceIndex <= |sources|
      ensures v.inOrder ==> Aligned(v.line, Some(x)) && x.payload != Bare(Deferred(Nothing))
      ensures v.inOrder ==> !x.payload.CallInto? && (x.payload.Bare? ==> !x.payload.item.Deferred?)
      ensures v.inOrder ==> (x.payload.Bare? && x.payload.item.Generator? ==> !x.payload.item.parallel)
    {
    }

    lemma CloseCarrying(v: View, held: Option<InFlight>)
      requires Routed(net) && Owing(v.debt, held) && Load(held) <= v.load && currentSourceIndex <= |sources|
      requires v.inOrder ==> Aligned(v.line, held)
      ensures Carrying(v, held)
    {
    }

    lemma CarryNothing()
      requires Valid()
      ensures Carrying(Look(), None)
    {
      OpenSettled();
      hide Debt, Load, Line, InOrder;
      OpenUp(Debt(None), Load(None), Line(None));
    }

    lemma PutDown(v: View)
      requires Routed(net) && Carrying(v, None)
      ensures Valid() && Later(v, Look()) && Look().load == Load(None)
      ensures v.inOrder ==> Look().inOrder
    {
      hide Holding, Debt, Load, Line, InOrder;
      OpenAligned(v.line);
    }

    lemma OpenAligned(line: seq<PipeItem>)
      requires Routed(net)
      ensures Aligned(line, None) ==> InOrder() && Line(None) == line
    {
    }

    lemma PickUp(v: View, w: View, held: Option<InFlight>)
      requires Routed(net) && Later(v, w) && Taken(w, held)
      ensures Carrying(v, held)
      ensures Load(held) <= w.load && (held.Some? ==> Load(held) < w.load)
    {
      hide Holding, Debt, Load, Aligned;
    }

    lemma ItemLocated(v: View, x: InFlight)
      requires Routed(net) && Carrying(v, Some(x))
      ensures Located(net, x.step, x.pipe) && x.pipe in net.pipes
    {
    }

    lemma Finished(v: View)
      requires Routed(net) && Carrying(v, None) && sources == [] && pool.futures == []
      ensures Outcome(v, StopIteration)
    {
      hide Consistent, Balanced, InitialFirst, Owed, Pending, AtOnce;
      NothingHeld(net, pool.State());
      NothingOwed(net, pool.State());
      if v.inOrder {
        assert HeldFlat(net, None) + Stack(net, []) == [];
      }
    }

    lemma Expecting(v: View)
      requires Routed(net) && Carrying(v, None) && !v.inOrder
      ensures Outcome(v, StillWaiting)
    {
      hide Consistent, Balanced, InitialFirst, Owed, Pending, AtOnce;
    }

    lemma Emit(v: View, x: InFlight)
      requires Routed(net) && Carrying(v, Some(x)) && Located(net, x.step, x.pipe)
      requires x.payload.Bare? && x.payload.item.Value? && x.step == |net.pipes[x.pipe]| - 1
      ensures Outcome(v, Returned(PipeItem(x.payload.item.data, x.step, x.pipe, x.meta)))
    {
      var item := PipeItem(x.payload.item.data, x.step, x.pipe, x.meta);
      assert Flatten(net, x.payload.item, x.step, x.pipe, x.meta) == [item];
      assert InFlightBag(net, x) == multiset{item} && InFlightEffort(net, x) >= 1;
      assert HeldFlat(net, Some(x)) == [item];
      hide Consistent, Balanced, InitialFirst, Owed, Pending, AtOnce, InFlightBag, InFlightEffort, Stack, HeldFlat;
      NothingHeld(net, pool.State());
      ItemHeld(net, x);
      if v.inOrder {
        NothingInLine();
      }
    }

    lemma NothingInLine()
      requires Routed(net)
      ensures Line(None) == Stack(net, sources)
    {
      assert HeldFlat(net, None) + Stack(net, sources) == Stack(net, sources);
    }

    /** Takes items until the iterator stops, or gives up waiting. */
    method Drain(patience: nat) returns (items: seq<PipeItem>, finished: bool)
      requires Valid()
      modifies this`sources, this`currentSourceIndex, this`initialSourcesCount, this`nextId, pool
      ensures Valid()
      ensures multiset(items) + Debt(None) == old(Debt(None))
      ensures finished ==> multiset(items) == old(Debt(None)) && sources == [] && pool.futures == []
      ensures old(InOrder()) ==> finished && items == old(Line(None))
      ensures pool.diligent && patience >= old(Load(None)) ==> finished
    {
      hide *;
      OpenValid();
      ghost var u, load := Look(), Load(None);
      items := [];
      NothingDrained(u);
      while true
        invariant Drained(u, items) && Routed(net) && Load(None) <= old(Load(None))
        decreases Load(None)
      {
        OpenDrained(u, items);
        ghost var v := Look();
        var r := Next(patience);
        match r {
          case Returned(item) =>
            DrainedOne(u, v, items, item);
            items := items + [item];
          case StopIteration =>
            DrainedAll(u, v, items);
            return items, true;
          case StillWaiting =>
            DrainedSome(u, v, items);
            return items, false;
        }
      }
    }

    /** Since `u`, exactly `items` were taken. */
    ghost predicate Drained(u: View, items: seq<PipeItem>)
      reads this, pool
    {
      && Valid() && multiset(items) + Debt(None) == u.debt
      && (u.inOrder ==> InOrder() && items + Line(None) == u.line)
    }

    lemma NothingDrained(u: View)
      requires Valid() && u == Look()
      ensures Drained(u, []) && u.debt == Debt(None) && u.line == Line(None) && (u.inOrder <==> InOrder())
    {
      assert Routed(net);
      hide Holding, Debt, Line, InOrder, Routed;
      assert [] + Line(None) == Line(None);
    }

    lemma OpenDrained(u: View, items: seq<PipeItem>)
      requires Drained(u, items)
      ensures Valid() && multiset(items) + Look().debt == u.debt && Look().load == Load(None)
      ensures u.inOrder ==> Look().inOrder && items + Look().line == u.line
    {
    }

    lemma DrainedOne(u: View, v: View, items: seq<PipeItem>, item: PipeItem)
      requires multiset(items) + v.debt == u.debt && (u.inOrder ==> v.inOrder && items + v.line == u.line)
      requires Outcome(v, Returned(item))
      ensures Drained(u, items + [item]) && Load(None) < v.load
    {
      assert Routed(net);
      hide Holding, Debt, Line, Load, InOrder, Routed;
      ItemsGrow(items, item, Debt(None), Line(None));
    }

    lemma DrainedAll(u: View, v: View, items: seq<PipeItem>)
      requires multiset(items) + v.debt == u.debt && (u.inOrder ==> v.inOrder && items + v.line == u.line)
      requires Outcome(v, StopIteration)
      ensures Valid() && sources == [] && pool.futures == [] && Debt(None) == multiset{} && multiset(items) == u.debt
      ensures multiset(items) + Debt(None) == u.debt
      ensures u.inOrder ==> items == u.line
    {
      hide Holding, Debt, Line, Load, InOrder;
      DebtPaid();
    }

    lemma DrainedSome(u: View, v: View, items: seq<PipeItem>)
      requires multiset(items) + v.debt == u.debt && (u.inOrder ==> v.inOrder)
      requires Outcome(v, StillWaiting)
      ensures Valid() && multiset(items) + Debt(None) == u.debt && !u.inOrder
    {
      hide Holding, Debt, Line, Load, InOrder;
    }

    lemma DebtPaid()
      requires Valid() && sources == [] && pool.futures == []
      ensures Debt(None) == multiset{}
    {
      NothingOwed(net, pool.State());
      NothingHeld(net, pool.State());
    }

    lemma NoSources()
      requires Valid() && sources == []
      ensures Continues(Look(), [], None) && Asked(Look(), [], [], None)
    {
      NothingAsked(sources, pool.State());
    }

    lemma OpenAccounts()
      requires Holding(None)
      ensures Routed(net) && pool.Valid() && Sound(pool.State())
      ensures Consistent(net, sources, pool.State()) && Balanced(pool.State(), -1)
      ensures InitialFirst(sources, initialSourcesCount, initialIds, nextId)
      ensures pool.maxParallelItems >= 1 && pool.State().usedSlots <= pool.maxParallelItems
      ensures Debt(None) == Owed(net, sources, pool.State()) && Load(None) == Pending(net, sources, pool.State())
      ensures Line(None) == Stack(net, sources)
    {
      assert HeldBag(net, None) == multiset{};
      assert HeldFlat(net, None) + Stack(net, sources) == Stack(net, sources);
    }

    lemma OpenSource(i: nat)
      requires Holding(None) && i < |sources|
      ensures sources[i].stream.Wrapped? ==> sources[i].stream.cell < |pool.closures|
    {
      assert sources[i] in sources && SourceFits(net, sources[i], pool.State());
    }

    lemma OpenInOrder()
      requires InOrder()
      ensures fifo && AtOnce(net, sources, pool.State())
    {
    }

    lemma Settle(sources0: seq<Source>, p0: PoolState, held: Option<InFlight>, debt: multiset<PipeItem>, load: nat)
      requires Routed(net) && Accounted(net, sources0, p0, sources, pool.State(), held)
      requires pool.maxParallelItems >= 1 && p0.usedSlots <= pool.maxParallelItems
      requires InitialFirst(sources, initialSourcesCount, initialIds, nextId)
      requires debt == Owed(net, sources0, p0) && load >= Pending(net, sources0, p0)
      ensures Settled(debt, load, held)
    {
    }

    lemma AlignedAfterPoll(sources0: seq<Source>, p0: PoolState, mid: PoolState, i: nat, r: Pulled, line: seq<PipeItem>)
      requires Routed(net) && Consistent(net, sources0, p0) && i == |sources0| - 1 && Reached(sources0[i], p0, mid)
      requires sources == AfterPollSources(sources0, mid, i) && pool.State() == AfterPollPool(sources0, mid, i)
      requires r == Advance(sources0[i], CellsOf(sources0[i], mid)).2
      requires fifo && AtOnce(net, sources0, p0) && line == Stack(net, sources0)
      ensures !r.Absent? && Aligned(line, PulledItem(r))
      ensures |sources| == |sources0| && (r.Ended? ==> Stack(net, sources[..i]) == line)
    {
      assert sources0[i] in sources0 && SourceFits(net, sources0[i], p0);
      NewestServedNow(net, sources0, p0, mid);
      assert HeldFlat(net, None) + Stack(net, sources0) == Stack(net, sources0);
    }
  }

  /** In a synchronous network the workers have nothing to do, and the newest source serves what
      is at the front of the line. */
  lemma NewestServedNow(net: Network, sources: seq<Source>, p: PoolState, mid: PoolState)
    requires Routed(net) && AtOnce(net, sources, p) && sources != []
    requires SourceFits(net, sources[|sources| - 1], p) && Reached(sources[|sources| - 1], p, mid)
    ensures
      var n := |sources| - 1;
      var sources', q := AfterPollSources(sources, mid, n), AfterPollPool(sources, mid, n);
      var r := Advance(sources[n], CellsOf(sources[n], mid)).2;
      && AtOnce(net, sources', q) && !r.Absent? && HeldAtOnce(PulledItem(r))
      && HeldFlat(net, PulledItem(r)) + Stack(net, sources') == HeldFlat(net, None) + Stack(net, sources)
      && (r.Ended? ==> Stack(net, sources'[..n]) == HeldFlat(net, None) + Stack(net, sources))
  {
    var n := |sources| - 1;
    assert sources[n] in sources;
    IdleReached(sources[n], p, mid);
    NewestServed(net, sources, mid, CellsOf(sources[n], mid));
    assert HeldFlat(net, None) + Stack(net, sources) == Stack(net, sources);
    assert AfterPollSources(sources, mid, n)[..n] == sources[..n];
  }

  lemma IdentitiesKept(sources: seq<Source>, mid: PoolState, i: nat, initialCount: int, initialIds: nat, nextId: nat)
    requires i < |sources|
    ensures |AfterPollSources(sources, mid, i)| == |sources| && Ids(AfterPollSources(sources, mid, i)) == Ids(sources)
    ensures InitialFirst(sources, initialCount, initialIds, nextId) ==>
              InitialFirst(AfterPollSources(sources, mid, i), initialCount, initialIds, nextId)
  {
  }

  lemma PopAccounted(net: Network, sources: seq<Source>, p: PoolState, i: nat)
    requires Routed(net) && Consistent(net, sources, p) && Balanced(p, -1) && i < |sources|
    requires Advance(sources[i], CellsOf(sources[i], p)).2 == Ended
    ensures Accounted(net, sources, p, sources[..i] + sources[i + 1..], p, None)
  {
    AfterPop(net, sources, p, i);
    assert HeldBag(net, None) == multiset{};
    hide Consistent, Owed, Pending, Balanced, Advance, CellsOf, Routed;
  }

  /** The source a generator in hand turns into. */
  predicate Becomes(x: InFlight, stream: Stream) {
    match x.payload
    case Bare(Generator(false, elements)) => stream == Listed(elements)
    case Forked(data, targets) => stream == Forking(data, targets)
    case _ => false
  }

  /** From `sources`, `p` with `x` in hand to `sources'`, `q` with `held` in hand: all invariants
      hold, the same items are owed, and work went down. */
  ghost predicate Handled(net: Network, sources: seq<Source>, p: PoolState, x: InFlight,
                          sources': seq<Source>, q: PoolState, held: Option<InFlight>)
    requires Routed(net)
  {
    && Consistent(net, sources', q) && Balanced(q, Hand(held)) && HeldFits(net, held, q)
    && Owed(net, sources', q) + HeldBag(net, held) == Owed(net, sources, p) + InFlightBag(net, x)
    && Pending(net, sources', q) + HeldEffort(net, held) < Pending(net, sources, p) + InFlightEffort(net, x)
  }

  lemma SourceAppended(net: Network, sources: seq<Source>, p: PoolState, s: Source, x: InFlight)
    requires Routed(net) && Consistent(net, sources, p) && HeldFits(net, Some(x), p) && Balanced(p, Hand(Some(x)))
    requires s.step == x.step && s.pipe == x.pipe && s.meta == x.meta && Becomes(x, s.stream)
    ensures Handled(net, sources, p, x, sources + [s], p, None)
  {
    hide Consistent, Balanced, Owed, Pending, InFlightBag, InFlightEffort, Routed, HeldFits;
    AfterAppend(net, sources, p, s, x);
    NothingHeld(net, p);
  }

  lemma ItemHeld(net: Network, x: InFlight)
    requires Routed(net)
    ensures HeldBag(net, Some(x)) == InFlightBag(net, x) && HeldEffort(net, Some(x)) == InFlightEffort(net, x)
  {
  }

  lemma ParallelAppended(net: Network, sources: seq<Source>, p: PoolState, id: nat, x: InFlight)
    requires Routed(net) && Consistent(net, sources, p) && HeldFits(net, Some(x), p) && Balanced(p, Hand(Some(x)))
    requires x.payload.Bare? && x.payload.item.Generator? && x.payload.item.parallel
    ensures
      var q := AddClosure(p, x.payload.item.elements, x.step, x.pipe, x.meta);
      Sound(q) && Handled(net, sources, p, x, sources + [Source(id, Wrapped(|p.closures|), x.step, x.pipe, x.meta)], q,
                          None)
  {
    ClosureKeepsSound(p, x.payload.item.elements, x.step, x.pipe, x.meta);
    hide Consistent, Balanced, Owed, Pending, InFlightBag, InFlightEffort, Routed, HeldFits, AddClosure, Sound;
    AfterAppendParallel(net, sources, p, id, x);
    NothingHeld(net, AddClosure(p, x.payload.item.elements, x.step, x.pipe, x.meta));
  }

  lemma NotWrapped(x: InFlight, stream: Stream)
    requires Becomes(x, stream)
    ensures !stream.Wrapped?
  {
  }

  lemma CellsThere(net: Network, sources: seq<Source>, p: PoolState)
    requires Consistent(net, sources, p)
    ensures forall s :: s in sources && s.stream.Wrapped? ==> s.stream.cell < |p.closures|
  {
  }

  lemma NewCell(sources: seq<Source>, p: PoolState)
    requires forall s :: s in sources && s.stream.Wrapped? ==> s.stream.cell < |p.closures|
    ensures forall s :: s in sources && s.stream.Wrapped? ==> s.stream != Wrapped(|p.closures|)
  {
  }

  lemma SubmissionFits(net: Network, x: InFlight, p: PoolState)
    requires TaskOf(x).Some? && HeldFits(net, Some(x), p)
    ensures TaskOf(x).value.Pull? ==>
              SameRoute(p, Future(Queued(TaskOf(x).value), x.step, x.pipe, x.meta), TaskOf(x).value.cell)
  {
  }

  /** Submission with all that workers may do before and during it. */
  lemma ItemSubmitted(net: Network, sources: seq<Source>, p: PoolState, x: InFlight, q: PoolState)
    requires Routed(net) && Consistent(net, sources, p) && Balanced(p, Hand(Some(x))) && HeldFits(net, Some(x), p)
    requires TaskOf(x).Some? && Submitted(p, Future(Queued(TaskOf(x).value), x.step, x.pipe, x.meta), q)
    ensures Handled(net, sources, p, x, sources, q, None)
  {
    var f := Future(Queued(TaskOf(x).value), x.step, x.pipe, x.meta);
    hide Consistent, Balanced, Owed, Pending, Routed, HeldFits, Worked, Enqueue, TaskOf;
    var mid :| Worked(p, mid) && Worked(Enqueue(mid, f), q);
    SubmittedVia(net, sources, p, x, mid, q);
  }

  lemma SubmittedVia(net: Network, sources: seq<Source>, p: PoolState, x: InFlight, mid: PoolState, q: PoolState)
    requires Routed(net) && Consistent(net, sources, p) && Balanced(p, Hand(Some(x))) && HeldFits(net, Some(x), p)
    requires TaskOf(x).Some? && Worked(p, mid)
    requires Worked(Enqueue(mid, Future(Queued(TaskOf(x).value), x.step, x.pipe, x.meta)), q)
    ensures Handled(net, sources, p, x, sources, q, None)
  {
    hide Consistent, Balanced, Owed, Pending, InFlightBag, InFlightEffort, Routed, HeldFits, Worked, Enqueue, Alike,
         TaskOf;
    AfterWorkers(net, sources, p, mid);
    AfterEnqueue(net, sources, mid, x);
    AfterWorkers(net, sources, Enqueue(mid, Future(Queued(TaskOf(x).value), x.step, x.pipe, x.meta)), q);
    NothingHeld(net, q);
  }

  /** Submission touches no generator that is free, whatever workers do before and during it. */
  lemma SubmittedKeepsReady(net: Network, sources: seq<Source>, p: PoolState, x: InFlight, q: PoolState)
    requires Routed(net) && Consistent(net, sources, p) && Balanced(p, Hand(Some(x))) && HeldFits(net, Some(x), p)
    requires TaskOf(x).Some? && Submitted(p, Future(Queued(TaskOf(x).value), x.step, x.pipe, x.meta), q)
    ensures KeepsReady(sources, p, -1, q)
  {
    hide Consistent, Balanced, Routed, HeldFits, Worked, Ready, TaskOf;
    var f := Future(Queued(TaskOf(x).value), x.step, x.pipe, x.meta);
    var mid :| Worked(p, mid) && Worked(Enqueue(mid, f), q);
    WorkedKeepsReady(sources, p, mid, Hand(Some(x)));
    AfterWorkers(net, sources, p, mid);
    AfterEnqueue(net, sources, mid, x);
    EnqueueKeepsReady(sources, mid, f);
    WorkedKeepsReady(sources, Enqueue(mid, f), q, -1);
  }

  lemma EnqueueKeepsReady(sources: seq<Source>, p: PoolState, f: Future)
    ensures forall s :: s in sources ==> Ready(s, Enqueue(p, f)) == Ready(s, p)
  {
  }

  lemma AllKept(sources: seq<Source>, p: PoolState)
    ensures KeepsReady(sources, p, -1, p)
  {
  }

  /** Resolving a future touches no generator that is free either. */
  lemma ResolvedKeepsFree(p: PoolState, mid: PoolState, i: nat, q: PoolState, r: Option<InFlight>)
    requires Balanced(p, -1) && Worked(p, mid) && FirstDoneResolved(mid, i, q, r)
    ensures FreeKept(p, q, -1)
    ensures r.Some? ==> |q.futures| < |mid.futures|
  {
    hide Balanced, Worked;
    WorkedKeepsFree(p, mid, -1);
  }

  lemma ReadyAtKept(sources: seq<Source>, i: nat, p: PoolState, q: PoolState)
    requires KeepsReady(sources, p, -1, q)
    ensures ReadyAt(sources, i, p).Some? ==> ReadyAt(sources, i, q) == ReadyAt(sources, i, p)
  {
    hide Ready;
  }

  lemma NoneResolved(net: Network, sources: seq<Source>, p: PoolState, q: PoolState)
    requires Routed(net) && Consistent(net, sources, p) && Balanced(p, -1) && Worked(p, q)
    ensures Accounted(net, sources, p, sources, q, None)
    ensures AtOnce(net, sources, p) ==> q == p
  {
    WorkedKeepsAccounts(net, p, q);
    if AtOnce(net, sources, p) {
      IdlePool(p, q);
    }
    hide Consistent, Balanced, Owed, Pending, Routed, Worked, Alike, AtOnce;
    AfterWorkers(net, sources, p, q);
    NothingHeld(net, q);
  }

  lemma AnyResolved(net: Network, sources: seq<Source>, p: PoolState, mid: PoolState, i: nat, q: PoolState,
                    held: Option<InFlight>)
    requires Routed(net) && Consistent(net, sources, p) && Balanced(p, -1)
    requires Worked(p, mid) && ResolvedAt(mid, i, q, held)
    ensures Accounted(net, sources, p, sources, q, held)
    ensures !AtOnce(net, sources, p)
    ensures held.None? ==> Pending(net, sources, q) < Pending(net, sources, p)
  {
    WorkedKeepsAccounts(net, p, mid);
    if AtOnce(net, sources, p) {
      IdlePool(p, mid);
      assert false;
    }
    hide Consistent, Balanced, Owed, Pending, Routed, Worked, Alike, AtOnce;
    AfterWorkers(net, sources, p, mid);
    AfterConsume(net, sources, mid, i);
    NothingHeld(net, q);
  }

  lemma ConsistentSound(net: Network, sources: seq<Source>, p: PoolState)
    requires Routed(net) && Consistent(net, sources, p)
    ensures Sound(p)
  {
  }

  lemma BusyPending(net: Network, sources: seq<Source>, p: PoolState, q: PoolState)
    requires Routed(net) && Consistent(net, sources, p) && Busied(p, q)
    ensures Pending(net, sources, q) < Pending(net, sources, p)
  {
    BusyReducesEffort(net, p, q);
  }

  lemma FirstOneDone(p: PoolState, i: nat, q: PoolState, r: Option<InFlight>)
    requires i < |p.futures| && FirstDoneResolved(p, i, q, r)
    ensures ResolvedAt(p, i, q, r)
  {
  }

  lemma FirstResolved(net: Network, sources: seq<Source>, p: PoolState, mid: PoolState, i: nat, q: PoolState,
                      held: Option<InFlight>)
    requires Routed(net) && Consistent(net, sources, p) && Balanced(p, -1)
    requires Worked(p, mid) && FirstDoneResolved(mid, i, q, held)
    ensures Accounted(net, sources, p, sources, q, held)
    ensures AtOnce(net, sources, p) ==> q == p && held == None
  {
    hide Consistent, Balanced, Owed, Pending, Routed, Worked, Alike, AtOnce;
    if i == |mid.futures| {
      NoneResolved(net, sources, p, q);
    } else {
      AnyResolved(net, sources, p, mid, i, q, held);
    }
  }

  lemma NothingHeld(net: Network, p: PoolState)
    requires Routed(net)
    ensures HeldBag(net, None) == multiset{} && HeldEffort(net, None) == 0 && HeldFits(net, None, p) && Hand(None) == -1
  {
  }

  lemma IdentitiesAppend(sources: seq<Source>, s: Source, initialCount: int, initialIds: nat, nextId: nat)
    requires s.id == nextId && forall u :: u in sources && u.stream.Wrapped? ==> u.stream != s.stream
    ensures InitialFirst(sources, initialCount, initialIds, nextId) ==>
              InitialFirst(sources + [s], initialCount, initialIds, nextId + 1)
  {
  }

  lemma IdentitiesDrop(sources: seq<Source>, i: nat, initialCount: int, initialIds: nat, nextId: nat)
    requires i < |sources|
    ensures Ids(sources[..i] + sources[i + 1..]) == Ids(sources)[..i] + Ids(sources)[i + 1..]
    ensures InitialFirst(sources, initialCount, initialIds, nextId) ==>
              InitialFirst(sources[..i] + sources[i + 1..],
                           if i < initialCount then initialCount - 1 else initialCount, initialIds, nextId)
  {
  }

  lemma FrameOpens(sources: seq<Source>, index: nat)
    requires sources != [] && index <= |sources|
    ensures |Ids(sources)| == |sources|
    ensures Turning(Ring(Ids(sources), index), [], Ring(Ids(sources), if index == 0 then |sources| - 1 else index - 1))
  {
  }

  predicate AllAbsent(polls: seq<bool>) {
    forall ended :: ended in polls ==> !ended
  }

  /** The last polls, as many as there are sources, asked each source exactly once. */
  ghost predicate RoundOf(polled: seq<nat>, ids: seq<nat>) {
    && |ids| <= |polled|
    && forall id: nat :: multiset(polled[|polled| - |ids|..])[id] == if id in ids then 1 else 0
  }

  lemma RoundOn(polled: seq<nat>, more: seq<nat>, ids: seq<nat>)
    ensures RoundOf(more, ids) ==> RoundOf(polled + more, ids)
  {
    if |ids| <= |more| {
      assert (polled + more)[|polled + more| - |ids|..] == more[|more| - |ids|..];
    }
  }

  lemma RoundAsked(ring: Ring, polls: seq<bool>, sources: seq<Source>, i: nat, initialCount: int, initialIds: nat,
                   nextId: nat)
    requires InitialFirst(sources, initialCount, initialIds, nextId) && sources != []
    requires Turning(ring, polls, Ring(Ids(sources), i)) && AllAbsent(polls) && |polls| == |sources|
    ensures RoundOf(Polls(ring, polls), Ids(sources))
  {
    hide Polls, After;
    var ids := ring.ids;
    KeptWhenAbsent(ring, polls);
    assert |Ids(sources)| == |sources|;
    forall id: nat ensures multiset(Polls(ring, polls)[0..])[id] == if id in Ids(sources) then 1 else 0 {
      FruitlessFrame(ring, polls, id);
      assert Polls(ring, polls)[0..] == Polls(ring, polls);
    }
    FruitlessFrame(ring, polls, 0);
  }

  lemma {:induction false} KeptWhenAbsent(ring: Ring, polls: seq<bool>)
    requires InRange(ring) && AllAbsent(polls)
    ensures After(ring, polls).ids == ring.ids
    decreases polls
  {
    if polls != [] && ring.ids != [] {
      assert polls[0] in polls;
      assert forall b :: b in polls[1..] ==> b in polls;
      KeptWhenAbsent(RoundRobin.Take(ring, polls[0]), polls[1..]);
    }
  }

  lemma TaskOfCall(x: InFlight)
    requires x.payload.CallInto?
    ensures TaskOf(x) == Some(Task.Pull(x.payload.cell))
  {
  }

  lemma InRound(polled: seq<nat>, ids: seq<nat>, id: nat)
    requires RoundOf(polled, ids) && id in ids
    ensures id in polled
  {
    assert multiset(polled[|polled| - |ids|..])[id] == if id in ids then 1 else 0;
    assert id in polled[|polled| - |ids|..];
  }

  /** `s` has not been asked since `v` and has ready what it had. */
  ghost predicate Waits(v: View, polls: seq<bool>, sources: seq<Source>, p: PoolState, s: Source) {
    InRange(v.ring) && s in sources && s.id !in Polls(v.ring, polls) && Ready(s, p) == Ready(s, v.pool)
  }

  /** With nothing to take, no source that is ready was overlooked. */
  lemma NotOverlooked(sources: seq<Source>, p: PoolState, polled: seq<nat>, now: seq<Source>, q: PoolState, s: Source)
    requires Untaken(sources, p, polled, now, q) && (now != [] ==> RoundOf(polled, Ids(now)))
    requires s in sources
    ensures Ready(s, p).None?
  {
    hide Ready, Skipped, Traceable;
    if s in now {
      var j :| 0 <= j < |now| && now[j] == s;
      assert Ids(now)[j] == s.id;
      InRound(polled, Ids(now), s.id);
    }
  }

  lemma RingFollows(r0: Ring, outcomes: seq<bool>, r1: Ring, more: seq<bool>)
    requires Turned(r0, outcomes, r1, true)
    ensures Polls(r0, outcomes + more) == Polls(r0, outcomes) + Polls(r1, more)
  {
    PollsConcat(r0, outcomes, more);
  }

  lemma ItemsGrow(items: seq<PipeItem>, item: PipeItem, rest: multiset<PipeItem>, line: seq<PipeItem>)
    ensures multiset(items + [item]) + rest == multiset(items) + (multiset{item} + rest)
    ensures items + [item] + line == items + ([item] + line)
  {
  }

  /** Extraction from beginning to end. Whatever the workers do and in whatever order: when the
      iterator stops, it has returned exactly the items that the generators of all root pipes
      finally yield, none lost and none twice. It stops if some worker gets on whenever the main
      thread waits in vain; in fifo mode on a synchronous network it always stops, and has returned
      them in depth-first order, the last root first. */
  method Extract(net: Network, fifo: bool, maxParallelItems: nat, diligent: bool, seeds: seq<Seed>, patience: nat)
    returns (items: seq<PipeItem>, finished: bool)
    requires Routed(net) && maxParallelItems >= 1
    requires forall seed :: seed in seeds ==> Located(net, 0, seed.pipe)
    ensures multiset(items) <= multiset(SeedLine(net, seeds))
    ensures finished ==> multiset(items) == multiset(SeedLine(net, seeds))
    ensures fifo && Synchronous(net) && (forall seed :: seed in seeds ==> SeedAtOnce(seed)) ==>
              finished && items == SeedLine(net, seeds)
    ensures diligent && patience >= SeedEffort(net, seeds) ==> finished
  {
    hide *;
    var it := new PipeIterator(net, fifo, maxParallelItems, diligent, seeds);
    items, finished := it.Drain(patience);
  }

  lemma OneEach(sources: seq<Source>, initialCount: int, initialIds: nat, nextId: nat)
    requires InitialFirst(sources, initialCount, initialIds, nextId)
    ensures OneSourceEach(sources)
  {
  }

  lemma PolledThere(sources: seq<Source>, p: PoolState, mid: PoolState, i: nat)
    requires OneSourceEach(sources) && i < |sources| && Balanced(p, -1) && Reached(sources[i], p, mid)
    ensures PolledAt(sources, p, i, AfterPollSources(sources, mid, i), AfterPollPool(sources, mid, i),
                     Advance(sources[i], CellsOf(sources[i], mid)).2)
  {
    hide Balanced, Reached, Advance, CellsOf, KeepsReady, OneSourceEach, Ready, WithCells;
    PollKeepsReady(sources, i, p, mid, Advance(sources[i], CellsOf(sources[i], mid)).1);
    if Ready(sources[i], p).Some? {
      ReadyGives(sources[i], p, mid);
    }
  }

  lemma PolledReady(sources: seq<Source>, p: PoolState, i: nat, after: seq<Source>, q: PoolState, r: Pulled)
    requires PolledAt(sources, p, i, after, q, r)
    ensures ReadyAt(sources, i, p).Some? ==> r == Got(ReadyAt(sources, i, p).value)
  {
  }

  lemma PolledInside(sources: seq<Source>, p: PoolState, i: nat, after: seq<Source>, q: PoolState, r: Pulled)
    requires PolledAt(sources, p, i, after, q, r)
    ensures i < |sources|
  {
  }

  function AfterPollSources(sources: seq<Source>, mid: PoolState, i: nat): (r: seq<Source>)
    requires i < |sources|
    ensures |r| == |sources|
  {
    sources[i := Advance(sources[i], CellsOf(sources[i], mid)).0]
  }

  function AfterPollPool(sources: seq<Source>, mid: PoolState, i: nat): PoolState
    requires i < |sources|
  {
    WithCells(sources[i], mid, Advance(sources[i], CellsOf(sources[i], mid)).1)
  }

  lemma EndedAfterPoll(sources: seq<Source>, mid: PoolState, i: nat)
    requires i < |sources|
    ensures Advance(sources[i], CellsOf(sources[i], mid)).2 == Ended ==>
              AfterPollSources(sources, mid, i) == sources && AfterPollPool(sources, mid, i) == mid
  {
    var s := sources[i];
    if s.stream.Wrapped? && s.stream.cell < |mid.closures| {
      var c := mid.closures[s.stream.cell];
      assert mid.closures[s.stream.cell := c] == mid.closures;
    }
  }

  /** From sources and pool `sources`, `p` to `sources'`, `q` with `held` in hand: all invariants
      hold, the same items are owed, and work went down unless there was nothing to take. */
  ghost predicate Accounted(net: Network, sources: seq<Source>, p: PoolState,
                            sources': seq<Source>, q: PoolState, held: Option<InFlight>)
    requires Routed(net)
  {
    && Consistent(net, sources', q) && Balanced(q, Hand(held)) && HeldFits(net, held, q)
    && Owed(net, sources', q) + HeldBag(net, held) == Owed(net, sources, p)
    && Pending(net, sources', q) + HeldEffort(net, held) <= Pending(net, sources, p)
    && (held.Some? ==> Pending(net, sources', q) + HeldEffort(net, held) < Pending(net, sources, p))
    && q.usedSlots <= p.usedSlots
  }

  /** Workers acting, then a poll: all accounts agree. */
  lemma AfterPoll(net: Network, sources: seq<Source>, p: PoolState, mid: PoolState, i: nat)
    requires Routed(net) && Consistent(net, sources, p) && Balanced(p, -1) && i < |sources|
             && Reached(sources[i], p, mid)
    ensures Accounted(net, sources, p, AfterPollSources(sources, mid, i), AfterPollPool(sources, mid, i),
                      PulledItem(Advance(sources[i], CellsOf(sources[i], mid)).2))
    ensures Advance(sources[i], CellsOf(sources[i], mid)).2.Absent? ==>
              Pending(net, AfterPollSources(sources, mid, i), AfterPollPool(sources, mid, i)) < Pending(net, sources, p)
              || mid.futures != []
  {
    hide Consistent, Owed, Pending, Balanced, HeldFits, HeldBag, HeldEffort, Worked, Advance, CellsOf, Routed, Alike,
         Reached;
    AfterReaching(net, sources, p, mid, sources[i]);
    AfterAdvance(net, sources, mid, i);
    PollKeepsSlots(sources, mid, i);
  }

  lemma PollKeepsSlots(sources: seq<Source>, mid: PoolState, i: nat)
    requires i < |sources|
    ensures AfterPollPool(sources, mid, i).usedSlots == mid.usedSlots
  {
  }
}
