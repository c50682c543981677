/**
  The bounded pool that runs deferred items in the background. Workers act between any two
  steps of the main thread: they run queued tasks and then mark futures done.
*/
module Concurrency {
  import opened Options
  import opened PipeFlow
  import opened Handshake
  import opened Sums

  // ---------------------------------------------------------------------------------------
  // State of the pool, of the workers, and of the closures the workers call into

  /** An own callable or awaitable of an item, or a call into a parallelized generator. */
  datatype Task = Own(outcome: Yield) | Pull(cell: nat)

  /** Not run yet; run, but the future is not marked done; done and its slot vacated. */
  datatype Phase = Queued(task: Task) | Ran(result: Yield) | Done(result: Yield)

  datatype Future = Future(phase: Phase, step: int, pipe: PipeId, meta: Meta)

  /** The cells of a parallelized generator and the place its elements belong to. */
  datatype Closure = Closure(cells: Cells, step: int, pipe: PipeId, meta: Meta)

  datatype PoolState = PoolState(futures: seq<Future>, usedSlots: int, closures: seq<Closure>)

  /** What the iterator holds in hand: an item to process, the generator of a fork, or a call. */
  datatype Payload = Bare(item: Item) | Forked(data: Data, targets: seq<Target>) | CallInto(cell: nat)

  datatype InFlight = InFlight(payload: Payload, step: int, pipe: PipeId, meta: Meta)

  datatype WorkerEvent = RunTask(i: nat) | Finish(i: nat)

  /** One action of a worker; an event that is not possible in `p` changes nothing. */
  function Worker(p: PoolState, e: WorkerEvent): PoolState {
    if e.i >= |p.futures| then p
    else
      var f := p.futures[e.i];
      match (e, f.phase)
      case (RunTask(i), Queued(Own(y))) => p.(futures := p.futures[i := f.(phase := Ran(y))])
      case (RunTask(i), Queued(Pull(k))) =>
        if k >= |p.closures| then p
        else
          var (c, y) := Call(p.closures[k].cells);
          p.(futures := p.futures[i := f.(phase := Ran(y))],
             closures := p.closures[k := p.closures[k].(cells := c)])
      case (Finish(i), Ran(y)) =>
        p.(futures := p.futures[i := f.(phase := Done(y))], usedSlots := p.usedSlots - 1)
      case _ => p
  }

  function Workers(p: PoolState, es: seq<WorkerEvent>): PoolState
    decreases es
  {
    if es == [] then p else Workers(Worker(p, es[0]), es[1..])
  }

  /** `q` is `p` after the workers did anything they might do. */
  ghost predicate Worked(p: PoolState, q: PoolState) {
    exists es :: Workers(p, es) == q
  }

  /** Submission: the future joins the pool behind the others and takes a slot. */
  function Enqueue(p: PoolState, f: Future): PoolState {
    p.(futures := p.futures + [f], usedSlots := p.usedSlots + 1)
  }

  /** Consumption of a future by the iterator; its slot was vacated when it finished. */
  function Consume(p: PoolState, i: nat): PoolState
    requires i < |p.futures|
  {
    p.(futures := p.futures[..i] + p.futures[i + 1..])
  }

  /** The pool after a parallelized generator with these elements got its cells. */
  function AddClosure(p: PoolState, elements: seq<Yield>, step: int, pipe: PipeId, meta: Meta): PoolState {
    p.(closures := p.closures + [Closure(Fresh(elements), step, pipe, meta)])
  }

  function Resolved(f: Future): Option<InFlight>
    requires f.phase.Done?
  {
    match f.phase.result
    case Nothing => None
    case Plain(item) => Some(InFlight(Bare(item), f.step, f.pipe, f.meta))
    case Tagged(item, own) => Some(InFlight(Bare(item), f.step, f.pipe, own))
  }

  // ---------------------------------------------------------------------------------------
  // Slots and outstanding calls

  function Occupies(f: Future): nat {
    if f.phase.Done? then 0 else 1
  }

  ghost function Pulls(k: nat): Future -> nat {
    (f: Future) => if f.phase == Queued(Pull(k)) then 1 else 0
  }

  predicate SoundCells(c: Cells) {
    && (c.exhausted ==> c.rest == [])
    && (c.exhausted && c.busy ==> c.resume == OuterTest)
  }

  ghost predicate Sound(p: PoolState) {
    && p.usedSlots == Total(p.futures, Occupies)
    && (forall f :: f in p.futures && f.phase.Queued? && f.phase.task.Pull? ==> SameRoute(p, f, f.phase.task.cell))
    && (forall c :: c in p.closures ==> SoundCells(c.cells))
  }

  ghost predicate SameRoute(p: PoolState, f: Future, k: nat) {
    && k < |p.closures|
    && f.step == p.closures[k].step && f.pipe == p.closures[k].pipe && f.meta == p.closures[k].meta
  }

  /** Every parallelized generator has one outstanding call if it is busy and none otherwise;
      `inHand` is the generator whose call the main thread holds, or -1. */
  ghost predicate Balanced(p: PoolState, inHand: int) {
    forall k :: 0 <= k < |p.closures| ==>
      Total(p.futures, Pulls(k)) + (if k == inHand then 1 else 0) == if p.closures[k].cells.busy then 1 else 0
  }

  // ---------------------------------------------------------------------------------------
  // What the pool still owes, and how much work that is

  ghost function FutureBag(net: Network): Future -> multiset<PipeItem>
    requires Routed(net)
  {
    (f: Future) =>
      if f.phase.Queued? then
        if f.phase.task.Own? then multiset(FlattenYield(net, f.phase.task.outcome, f.step, f.pipe, f.meta))
        else multiset{}
      else multiset(FlattenYield(net, f.phase.result, f.step, f.pipe, f.meta))
  }

  ghost function ClosureBag(net: Network): Closure -> multiset<PipeItem>
    requires Routed(net)
  {
    (c: Closure) => multiset(FlattenAll(net, c.cells.rest, c.step, c.pipe, c.meta))
  }

  ghost function PoolBag(net: Network, p: PoolState): multiset<PipeItem>
    requires Routed(net)
  {
    Bag(p.futures, FutureBag(net)) + Bag(p.closures, ClosureBag(net))
  }

  ghost function FutureEffort(net: Network): Future -> nat
    requires Routed(net)
  {
    (f: Future) =>
      match f.phase
      case Queued(Own(y)) => 3 + EffortYield(net, y, f.step, f.pipe, f.meta)
      case Queued(Pull(_)) => 3
      case Ran(y) => 2 + EffortYield(net, y, f.step, f.pipe, f.meta)
      case Done(y) => 1 + EffortYield(net, y, f.step, f.pipe, f.meta)
  }

  /** How many calls a parallelized generator can still emit. */
  function CallsLeft(c: Cells): nat {
    if c.exhausted then (if c.resume != OuterTest then 1 else 0)
    else |c.rest| + 2 - (if c.busy then 1 else 0)
  }

  ghost function ClosureEffort(net: Network): Closure -> nat
    requires Routed(net)
  {
    (c: Closure) => EffortAll(net, c.cells.rest, c.step, c.pipe, c.meta) + CALL_COST * CallsLeft(c.cells)
  }

  ghost function PoolEffort(net: Network, p: PoolState): nat
    requires Routed(net)
  {
    Total(p.futures, FutureEffort(net)) + Total(p.closures, ClosureEffort(net))
  }

  ghost function InFlightBag(net: Network, x: InFlight): multiset<PipeItem>
    requires Routed(net)
  {
    match x.payload
    case Bare(item) => multiset(Flatten(net, item, x.step, x.pipe, x.meta))
    case Forked(data, targets) => multiset(FlattenFork(net, data, x.meta, x.pipe, targets))
    case CallInto(_) => multiset{}
  }

  ghost function InFlightEffort(net: Network, x: InFlight): nat
    requires Routed(net)
  {
    match x.payload
    case Bare(item) => Effort(net, item, x.step, x.pipe, x.meta)
    case Forked(data, targets) => 1 + EffortFork(net, data, x.meta, x.pipe, targets)
    case CallInto(_) => CALL_COST - 1
  }

  // ---------------------------------------------------------------------------------------
  // Workers neither lose nor duplicate anything, in any order

  /** Workers keep the futures and generators where they are; what is done stays as it is; and
      they do not touch where a wrapper is suspended. */
  ghost predicate Alike(p: PoolState, q: PoolState) {
    && |q.futures| == |p.futures| && |q.closures| == |p.closures|
    && (forall i :: 0 <= i < |p.futures| ==> SameFuture(p.futures[i], q.futures[i]))
    && (forall k :: 0 <= k < |p.closures| ==> SameWrapper(p.closures[k], q.closures[k]))
  }

  ghost predicate SameFuture(f: Future, g: Future) {
    && g.step == f.step && g.pipe == f.pipe
    && (f.phase.Done? ==> g == f)
  }

  ghost predicate SameWrapper(c: Closure, d: Closure) {
    && d.step == c.step && d.pipe == c.pipe && d.meta == c.meta
    && d.cells.resume == c.cells.resume
    && (c.cells.exhausted ==> d.cells.exhausted)
    && (c.cells.rest == [] ==> d.cells.rest == [])
  }

  lemma WorkerKeepsShape(p: PoolState, e: WorkerEvent)
    ensures Alike(p, Worker(p, e))
  {
  }

  lemma WorkerKeepsSound(p: PoolState, e: WorkerEvent)
    requires Sound(p)
    ensures Sound(Worker(p, e))
  {
    var q := Worker(p, e);
    if q != p {
      TotalUpdate(p.futures, e.i, q.futures[e.i], Occupies);
      var f := p.futures[e.i];
      assert f in p.futures;
      forall g | g in q.futures && g.phase.Queued? && g.phase.task.Pull?
        ensures SameRoute(q, g, g.phase.task.cell)
      {
        assert g in p.futures;
      }
      if e.RunTask? && f.phase.task.Pull? {
        assert p.closures[f.phase.task.cell] in p.closures;
      }
    }
  }

  lemma WorkerKeepsBalance(p: PoolState, e: WorkerEvent, inHand: int)
    requires Balanced(p, inHand)
    ensures Balanced(Worker(p, e), inHand)
  {
    var q := Worker(p, e);
    if q != p {
      forall j: nat | j < |p.closures|
        ensures Total(q.futures, Pulls(j)) + (if j == inHand then 1 else 0) == if q.closures[j].cells.busy then 1 else 0
      {
        TotalUpdate(p.futures, e.i, q.futures[e.i], Pulls(j));
      }
    }
  }

  /** The cells of generators that are not busy are in `q` as they were in `p`, but for those of `k`. */
  ghost predicate FreeKept(p: PoolState, q: PoolState, k: int) {
    && |p.closures| <= |q.closures|
    && forall j :: 0 <= j < |p.closures| && j != k && !p.closures[j].cells.busy ==> q.closures[j] == p.closures[j]
  }

  /** No worker can touch the cells of a generator that is not busy, as no call into it is queued. */
  lemma WorkerKeepsFree(p: PoolState, e: WorkerEvent, inHand: int)
    requires Balanced(p, inHand)
    ensures FreeKept(p, Worker(p, e), -1)
  {
    var q := Worker(p, e);
    forall j: nat | j < |p.closures| && !p.closures[j].cells.busy ensures q.closures[j] == p.closures[j] {
      if q.closures[j] != p.closures[j] {
        TotalSplit(p.futures, e.i, Pulls(j));
      }
    }
  }

  lemma {:induction false} WorkersKeepFree(p: PoolState, es: seq<WorkerEvent>, inHand: int)
    requires Balanced(p, inHand)
    ensures FreeKept(p, Workers(p, es), -1)
    decreases es
  {
    hide Balanced, Worker;
    if es != [] {
      WorkerKeepsFree(p, es[0], inHand);
      WorkerKeepsBalance(p, es[0], inHand);
      WorkersKeepFree(Worker(p, es[0]), es[1..], inHand);
    }
  }

  lemma WorkedKeepsFree(p: PoolState, q: PoolState, inHand: int)
    requires Balanced(p, inHand) && Worked(p, q)
    ensures FreeKept(p, q, -1)
  {
    var es :| Workers(p, es) == q;
    WorkersKeepFree(p, es, inHand);
  }

  lemma CallBag(net: Network, c: Closure, f: Future, k: nat)
    requires Routed(net)
    requires f.phase == Queued(Pull(k)) && f.step == c.step && f.pipe == c.pipe && f.meta == c.meta
    ensures
      var (cells, y) := Call(c.cells);
      FutureBag(net)(f.(phase := Ran(y))) + ClosureBag(net)(c.(cells := cells)) == FutureBag(net)(f)
        + ClosureBag(net)(c)
  {
  }

  lemma WorkerKeepsBag(net: Network, p: PoolState, e: WorkerEvent)
    requires Routed(net) && Sound(p)
    ensures PoolBag(net, Worker(p, e)) == PoolBag(net, p)
  {
    var q := Worker(p, e);
    if q != p {
      var f, g := p.futures[e.i], q.futures[e.i];
      if e.RunTask? && f.phase.task.Pull? {
        assert f in p.futures;
        var k := f.phase.task.cell;
        CallBag(net, p.closures[k], f, k);
        BagUpdate(p.futures, e.i, g, FutureBag(net));
        BagUpdate(p.closures, k, q.closures[k], ClosureBag(net));
        AccountsAgree(Bag(p.futures, FutureBag(net)), Bag(q.futures, FutureBag(net)), FutureBag(net)(f),
                      FutureBag(net)(g),
                      Bag(p.closures, ClosureBag(net)), Bag(q.closures, ClosureBag(net)),
                      ClosureBag(net)(p.closures[k]), ClosureBag(net)(q.closures[k]));
      } else {
        BagKept(p.futures, e.i, g, FutureBag(net));
      }
    }
  }

  lemma AccountsAgree<T>(a: multiset<T>, a': multiset<T>, f: multiset<T>, f': multiset<T>,
                         b: multiset<T>, b': multiset<T>, c: multiset<T>, c': multiset<T>)
    requires a' + f == a + f' && b' + c == b + c' && f' + c' == f + c
    ensures a' + b' == a + b
  {
    forall x ensures (a' + b')[x] == (a + b)[x] {
      assert (a' + f)[x] == (a + f')[x] && (b' + c)[x] == (b + c')[x] && (f' + c')[x] == (f + c)[x];
    }
  }

  lemma CallEffort(net: Network, c: Closure, f: Future, k: nat)
    requires Routed(net) && SoundCells(c.cells)
    requires f.phase == Queued(Pull(k)) && f.step == c.step && f.pipe == c.pipe && f.meta == c.meta
    ensures
      var (cells, y) := Call(c.cells);
      FutureEffort(net)(f.(phase := Ran(y))) + ClosureEffort(net)(c.(cells := cells))
        < FutureEffort(net)(f) + ClosureEffort(net)(c)
  {
  }

  lemma WorkerReducesEffort(net: Network, p: PoolState, e: WorkerEvent)
    requires Routed(net) && Sound(p)
    ensures Worker(p, e) == p || PoolEffort(net, Worker(p, e)) < PoolEffort(net, p)
  {
    var q := Worker(p, e);
    if q != p {
      var f, g := p.futures[e.i], q.futures[e.i];
      TotalUpdate(p.futures, e.i, g, FutureEffort(net));
      if e.RunTask? && f.phase.task.Pull? {
        assert f in p.futures;
        var k := f.phase.task.cell;
        assert p.closures[k] in p.closures;
        CallEffort(net, p.closures[k], f, k);
        TotalUpdate(p.closures, k, q.closures[k], ClosureEffort(net));
      } else {
        assert FutureEffort(net)(g) < FutureEffort(net)(f);
      }
    }
  }

  /** Whatever the workers do, in any order: the pool owes the same items, its accounts stay in
      order, and nothing they do adds work. */
  lemma {:induction false} WorkersKeepAccounts(net: Network, p: PoolState, es: seq<WorkerEvent>)
    requires Routed(net) && Sound(p)
    ensures
      var q := Workers(p, es);
      && Sound(q) && Alike(p, q)
      && PoolBag(net, q) == PoolBag(net, p)
      && PoolEffort(net, q) <= PoolEffort(net, p)
      && q.usedSlots <= p.usedSlots
      && forall h: int :: Balanced(p, h) ==> Balanced(q, h)
    decreases es
  {
    hide Sound, Alike, Balanced, PoolBag, PoolEffort, Worker, Routed;
    if es != [] {
      var mid := Worker(p, es[0]);
      WorkerSlots(p, es[0]);
      WorkerKeepsShape(p, es[0]);
      WorkerKeepsSound(p, es[0]);
      WorkerKeepsBag(net, p, es[0]);
      WorkerReducesEffort(net, p, es[0]);
      forall h: int | Balanced(p, h) ensures Balanced(mid, h) {
        WorkerKeepsBalance(p, es[0], h);
      }
      WorkersKeepAccounts(net, mid, es[1..]);
      AlikeTransitive(p, mid, Workers(mid, es[1..]));
    } else {
      AlikeItself(p);
    }
  }

  lemma AlikeItself(p: PoolState)
    ensures Alike(p, p)
  {
  }

  lemma AlikeTransitive(p: PoolState, q: PoolState, r: PoolState)
    requires Alike(p, q) && Alike(q, r)
    ensures Alike(p, r)
  {
    forall i | 0 <= i < |p.futures| ensures SameFuture(p.futures[i], r.futures[i]) {
      assert SameFuture(p.futures[i], q.futures[i]) && SameFuture(q.futures[i], r.futures[i]);
    }
    forall k | 0 <= k < |p.closures| ensures SameWrapper(p.closures[k], r.closures[k]) {
      assert SameWrapper(p.closures[k], q.closures[k]) && SameWrapper(q.closures[k], r.closures[k]);
    }
  }

  lemma {:induction false} WorkersAppend(p: PoolState, es: seq<WorkerEvent>, e: WorkerEvent)
    ensures Workers(p, es + [e]) == Worker(Workers(p, es), e)
    decreases es
  {
    if es == [] {
      assert Workers(p, [e]) == Workers(Worker(p, e), [e][1..]);
    } else {
      assert (es + [e])[1..] == es[1..] + [e];
      WorkersAppend(Worker(p, es[0]), es[1..], e);
    }
  }

  lemma WorkedAlready(p: PoolState)
    ensures Worked(p, p)
  {
    assert Workers(p, []) == p;
  }

  lemma WorkedOnce(p: PoolState, q: PoolState, e: WorkerEvent)
    requires Worked(p, q)
    ensures Worked(p, Worker(q, e))
  {
    var es :| Workers(p, es) == q;
    WorkersAppend(p, es, e);
  }

  lemma {:induction false} WorkedMore(p: PoolState, q: PoolState, es: seq<WorkerEvent>)
    requires Worked(p, q)
    ensures Worked(p, Workers(q, es))
    decreases es
  {
    if es != [] {
      WorkedOnce(p, q, es[0]);
      WorkedMore(p, Worker(q, es[0]), es[1..]);
    }
  }

  lemma WorkedTransitive(p: PoolState, q: PoolState, r: PoolState)
    requires Sound(q) && Worked(p, q) && Worked(q, r)
    ensures Worked(p, r)
    ensures Sound(r) && r.usedSlots <= q.usedSlots
    ensures |r.futures| == |q.futures|
    ensures forall i :: 0 <= i < |q.futures| && q.futures[i].phase.Done? ==> r.futures[i].phase.Done?
  {
    var es :| Workers(q, es) == r;
    WorkedMore(p, q, es);
    WorkersKeepSound(q, es);
    forall i | 0 <= i < |q.futures| && q.futures[i].phase.Done? ensures r.futures[i].phase.Done? {
      assert SameFuture(q.futures[i], r.futures[i]);
    }
  }

  function UpTo(n: nat): (s: set<nat>)
    ensures forall i: nat :: i in s <==> i < n
  {
    if n == 0 then {} else UpTo(n - 1) + {n - 1}
  }

  lemma SubmittedRuns(p: PoolState, f: Future)
    requires f.phase.Queued? && (f.phase.task.Pull? ==> f.phase.task.cell < |p.closures|)
    ensures
      Worker(Enqueue(p, f), RunTask(|p.futures|)) ==
      match f.phase.task
      case Own(y) => Enqueue(p, f.(phase := Ran(y)))
      case Pull(k) =>
        var (c, y) := Call(p.closures[k].cells);
        Enqueue(p.(closures := p.closures[k := p.closures[k].(cells := c)]), f.(phase := Ran(y)))
  {
    forall y { ReplaceLast(p.futures, f, f.(phase := Ran(y))); }
  }

  lemma SubmittedFinishes(p: PoolState, f: Future, y: Yield)
    requires f.phase == Ran(y)
    ensures Worker(Enqueue(p, f), Finish(|p.futures|)) == p.(futures := p.futures + [f.(phase := Done(y))])
  {
    ReplaceLast(p.futures, f, f.(phase := Done(y)));
  }

  lemma ReplaceLast<T>(s: seq<T>, x: T, y: T)
    ensures (s + [x])[|s| := y] == s + [y]
  {
  }

  lemma WorkedKeepsAccounts(net: Network, p: PoolState, q: PoolState)
    requires Routed(net) && Sound(p) && Worked(p, q)
    ensures
      && Sound(q) && Alike(p, q)
      && PoolBag(net, q) == PoolBag(net, p)
      && PoolEffort(net, q) <= PoolEffort(net, p)
      && q.usedSlots <= p.usedSlots
      && forall h: int :: Balanced(p, h) ==> Balanced(q, h)
  {
    var es :| Workers(p, es) == q;
    WorkersKeepAccounts(net, p, es);
  }

  lemma WorkersKeepSound(p: PoolState, es: seq<WorkerEvent>)
    requires Sound(p)
    ensures Sound(Workers(p, es)) && Alike(p, Workers(p, es)) && Workers(p, es).usedSlots <= p.usedSlots
  {
    WorkersKeepAccounts(Network(map[], map[]), p, es);
  }

  lemma {:induction false} SlotsBounded(fs: seq<Future>)
    ensures Total(fs, Occupies) <= |fs|
    ensures Total(fs, Occupies) == 0 <==> forall f :: f in fs ==> f.phase.Done?
  {
    if fs != [] {
      SlotsBounded(fs[1..]);
      assert fs == [fs[0]] + fs[1..];
    }
  }

  // ---------------------------------------------------------------------------------------
  // The pool itself

  /** `q` may be the state after submitting `f` in state `p`: workers act before, and may act on
      the new future before the submission is complete. */
  ghost predicate Submitted(p: PoolState, f: Future, q: PoolState) {
    exists mid :: Worked(p, mid) && Worked(Enqueue(mid, f), q)
  }

  /** `q` and `r` are what resolving the `i`-th future of `p` leaves and returns. */
  ghost predicate ResolvedAt(p: PoolState, i: nat, q: PoolState, r: Option<InFlight>) {
    i < |p.futures| && p.futures[i].phase.Done? && q == Consume(p, i) && r == Resolved(p.futures[i])
  }

  ghost predicate SomeDone(p: PoolState) {
    exists i :: 0 <= i < |p.futures| && p.futures[i].phase.Done?
  }

  /** `q` is `p` after the workers did at least one thing. */
  ghost predicate Busied(p: PoolState, q: PoolState) {
    exists e :: Worker(p, e) != p && Worked(Worker(p, e), q)
  }

  /** Every future has an event as long as it is not done. */
  function EventOf(p: PoolState, i: nat): WorkerEvent
    requires i < |p.futures|
  {
    if p.futures[i].phase.Queued? then RunTask(i) else Finish(i)
  }

  lemma EventPossible(p: PoolState, i: nat)
    requires Sound(p) && i < |p.futures| && !p.futures[i].phase.Done?
    ensures Worker(p, EventOf(p, i)) != p
  {
    var f, q := p.futures[i], Worker(p, EventOf(p, i));
    assert f in p.futures;
    assert q.futures[i] != f;
  }

  /** Whatever the workers do, if they do anything, takes work off. */
  lemma BusyReducesEffort(net: Network, p: PoolState, q: PoolState)
    requires Routed(net) && Sound(p) && Busied(p, q)
    ensures Worked(p, q) && PoolEffort(net, q) < PoolEffort(net, p)
  {
    hide Routed, Sound, PoolEffort, Worker;
    var e :| Worker(p, e) != p && Worked(Worker(p, e), q);
    var m := Worker(p, e);
    WorkerReducesEffort(net, p, e);
    WorkerKeepsSound(p, e);
    WorkedKeepsAccounts(net, m, q);
    WorkedAlready(p);
    WorkedOnce(p, p, e);
    WorkedOn(p, m, q);
  }

  lemma WorkedOn(p: PoolState, q: PoolState, r: PoolState)
    requires Worked(p, q) && Worked(q, r)
    ensures Worked(p, r)
  {
    var es :| Workers(q, es) == r;
    WorkedMore(p, q, es);
  }

  class FuturesPool {
    const maxParallelItems: nat
    /** Whether, while the main thread waits and no future is done, some worker always gets on. */
    const diligent: bool
    var futures: seq<Future>
    var usedSlots: int
    var closures: seq<Closure>

    function State(): PoolState
      reads this
    {
      PoolState(futures, usedSlots, closures)
    }

    /** Used slots are the futures not yet done, and there are never more than allowed. */
    ghost predicate Valid()
      reads this
    {
      maxParallelItems >= 1 && Sound(State()) && usedSlots <= maxParallelItems
    }

    function FreeSlots(): int
      reads this
    {
      maxParallelItems - usedSlots
    }

    constructor (maxParallelItems: nat, diligent: bool)
      requires maxParallelItems >= 1
      ensures Valid() && State() == PoolState([], 0, [])
      ensures this.maxParallelItems == maxParallelItems && this.diligent == diligent
    {
      this.maxParallelItems, this.diligent := maxParallelItems, diligent;
      futures, usedSlots, closures := [], 0, [];
    }

    /** The workers do any number of things, in any order. */
    method RunWorkers()
      modifies this
      ensures Worked(old(State()), State())
      ensures old(Valid()) ==> Valid()
    {
      var steps: nat := *;
      WorkedAlready(State());
      while steps > 0
        invariant Worked(old(State()), State())
      {
        var e: WorkerEvent := *;
        WorkedOnce(old(State()), State(), e);
        var q := Worker(State(), e);
        futures, usedSlots, closures := q.futures, q.usedSlots, q.closures;
        steps := steps - 1;
      }
      if old(Valid()) {
        var es :| Workers(old(State()), es) == State();
        WorkersKeepSound(old(State()), es);
      }
    }

    /** What the workers do while the main thread waits. */
    method RunWorkersAwhile()
      requires Valid() && futures != [] && !SomeDone(State())
      modifies this
      ensures Valid() && Worked(old(State()), State())
      ensures diligent ==> Busied(old(State()), State())
    {
      hide Worker, Workers, Sound;
      WorkedAlready(State());
      if diligent {
        var i: nat := *;
        i := i % |futures|;
        EventPossible(State(), i) by { assert Valid() && !futures[i].phase.Done?; }
        var e := EventOf(State(), i);
        WorkedOnce(State(), State(), e);
        WorkerKeepsSound(State(), e);
        WorkerSlots(State(), e);
        var q := Worker(State(), e);
        futures, usedSlots, closures := q.futures, q.usedSlots, q.closures;
      }
      ghost var q := State();
      RunWorkers();
      WorkedOn(old(State()), q, State());
    }

    /** Blocks until the `i`-th future is done. */
    method Await(i: nat)
      requires Valid() && i < |futures|
      modifies this
      ensures Valid() && Worked(old(State()), State())
      ensures i < |futures| && futures[i].phase.Done?
    {
      RunWorkers();
      ghost var mid := State();
      ghost var es0 :| Workers(old(State()), es0) == mid;
      WorkersKeepSound(old(State()), es0);
      var q := Worker(Worker(State(), RunTask(i)), Finish(i));
      assert q == Workers(mid, [RunTask(i), Finish(i)]) by { TwoEvents(mid, RunTask(i), Finish(i)); }
      WorkedMore(old(State()), mid, [RunTask(i), Finish(i)]);
      WorkersKeepSound(mid, [RunTask(i), Finish(i)]);
      assert futures[i] in futures;
      futures, usedSlots, closures := q.futures, q.usedSlots, q.closures;
    }

    /** Returns only when a slot is free. */
    method WaitForFreeSlot()
      requires Valid()
      modifies this
      ensures Valid() && Worked(old(State()), State())
      ensures FreeSlots() >= 1
    {
      WorkedAlready(State());
      if FreeSlots() >= 1 {
        return;
      }
      var waiting: set<nat> := UpTo(|futures|);
      while waiting != {}
        invariant Valid() && Worked(old(State()), State())
        invariant FreeSlots() == 0
        invariant |futures| == old(|futures|)
        invariant forall i :: i in waiting ==> i < |futures|
        invariant forall i: nat :: i < |futures| ==> i in waiting || futures[i].phase.Done?
        decreases |waiting|
      {
        // futures are handed out as they complete, in an order the main thread does not control
        var i :| i in waiting;
        ghost var before := State();
        Await(i);
        waiting := waiting - {i};
        WorkedTransitive(old(State()), before, State());
        if FreeSlots() == 0 {
          // this future was done before, so its slot had been vacated already
          continue;
        }
        return;
      }
      SlotsBounded(futures);
    }

    /** Adds a task to the pool; the future's completion and its slot callback are one step, also
        when the future is done before the callback is registered. */
    method Submit(task: Task, step: int, pipe: PipeId, meta: Meta)
      requires Valid()
      requires task.Pull? ==> SameRoute(State(), Future(Queued(task), step, pipe, meta), task.cell)
      modifies this
      ensures Valid()
      ensures Submitted(old(State()), Future(Queued(task), step, pipe, meta), State())
    {
      assert FreeSlots() >= 0;
      WaitForFreeSlot();
      ghost var mid := State();
      ghost var es0 :| Workers(old(State()), es0) == mid;
      WorkersKeepSound(old(State()), es0);
      ghost var f := Future(Queued(task), step, pipe, meta);
      EnqueueKeepsSound(mid, f);
      ghost var n := |futures|;
      ghost var submitted := Enqueue(mid, f);
      WorkedAlready(submitted);

      var future := Future(Queued(task), step, pipe, meta);
      // a worker may take it at once
      var taken: bool := *;
      if taken {
        var y;
        match task {
          case Own(outcome) =>
            y := outcome;
          case Pull(k) =>
            var (cells, element) := Call(closures[k].cells);
            closures := closures[k := closures[k].(cells := cells)];
            y := element;
        }
        future := future.(phase := Ran(y));
        WorkedOnce(Enqueue(mid, f), submitted, RunTask(n));
        SubmittedRuns(mid, f);
        submitted := Worker(submitted, RunTask(n));
        assert submitted == Enqueue(State(), future);
        // and may be done with it before the callback is there
        var early: bool := *;
        if early {
          future := future.(phase := Done(y));
          WorkedOnce(Enqueue(mid, f), submitted, Finish(n));
          SubmittedFinishes(State(), future.(phase := Ran(y)), y);
          submitted := Worker(submitted, Finish(n));
        }
      }
      if future.phase.Done? {
        usedSlots := usedSlots - 1;
      }
      usedSlots := usedSlots + 1;
      futures := futures + [future];

      assert State() == submitted;
      ghost var es :| Workers(Enqueue(mid, f), es) == submitted;
      WorkersKeepSound(Enqueue(mid, f), es);
    }

    /** A parallelized generator gets its cells. */
    method Wrap(elements: seq<Yield>, step: int, pipe: PipeId, meta: Meta)
      requires Valid() && Sound(AddClosure(State(), elements, step, pipe, meta))
      modifies this`closures
      ensures Valid() && State() == AddClosure(old(State()), elements, step, pipe, meta)
    {
      closures := closures + [Closure(Fresh(elements), step, pipe, meta)];
    }

    /** Takes a done future out of the pool. */
    method ResolveFuture(i: nat) returns (r: Option<InFlight>)
      requires i < |futures| && futures[i].phase.Done?
      modifies this
      ensures ResolvedAt(old(State()), i, State(), r)
    {
      var future := futures[i];
      futures := futures[..i] + futures[i + 1..];
      match future.phase.result
      case Nothing => r := None;
      case Plain(item) => r := Some(InFlight(Bare(item), future.step, future.pipe, future.meta));
      case Tagged(item, own) => r := Some(InFlight(Bare(item), future.step, future.pipe, own));
    }

    /** The first done future in order of submission. */
    method NextDoneFuture() returns (i: nat)
      ensures i <= |futures|
      ensures i < |futures| ==> futures[i].phase.Done?
      ensures forall j :: 0 <= j < i ==> !futures[j].phase.Done?
    {
      i := 0;
      while i < |futures|
        invariant i <= |futures|
        invariant forall j :: 0 <= j < i ==> !futures[j].phase.Done?
      {
        if futures[i].phase.Done? {
          return;
        }
        i := i + 1;
      }
    }

    /** Resolves the first done future, if there is one, and does not block. */
    method ResolveNextFutureNoWait() returns (r: Option<InFlight>)
      requires Valid()
      modifies this
      ensures Valid()
      ensures exists mid, i :: Worked(old(State()), mid) && FirstDoneResolved(mid, i, State(), r)
    {
      RunWorkers();
      ghost var mid := State();
      var i := NextDoneFuture();
      if i == |futures| {
        r := None;
      } else {
        r := ResolveFuture(i);
        ConsumeKeepsSound(mid, i);
      }
      assert FirstDoneResolved(mid, i, State(), r);
    }

    /** Waits, for a limited time, until some future is done, and resolves it. If one is done
        already it is the first done one; otherwise it is whichever completes first. */
    method ResolveNextFuture() returns (r: Option<InFlight>)
      requires Valid()
      modifies this
      ensures Valid()
      ensures old(futures) == [] ==> r == None && State() == old(State())
      ensures old(SomeDone(State())) ==> exists i ::
                0 <= i < |old(futures)| && FirstDoneResolved(old(State()), i, State(), r)
      ensures old(futures) != [] && !old(SomeDone(State())) ==>
                || (exists mid, i :: Worked(old(State()), mid) && ResolvedAt(mid, i, State(), r))
                || (r == None && Worked(old(State()), State()) && (diligent ==> Busied(old(State()), State())))
    {
      hide Sound, Workers, Worked, Busied;
      if futures == [] {
        return None;
      }
      var i := NextDoneFuture();
      ghost var mid := State();
      if i == |futures| {
        var timeout: bool := *;
        RunWorkersAwhile();
        if timeout {
          return None;
        }
        mid := State();
        StillThere(old(State()), mid);
        i := *;
        i := i % |futures|;
        Await(i);
        WorkedOn(old(State()), mid, State());
        mid := State();
      }
      r := ResolveFuture(i);
      ConsumeKeepsSound(mid, i);
      assert ResolvedAt(mid, i, State(), r);
      assert old(SomeDone(State())) ==> FirstDoneResolved(old(State()), i, State(), r);
    }
  }

  ghost predicate FirstDoneResolved(p: PoolState, i: nat, q: PoolState, r: Option<InFlight>) {
    && i <= |p.futures|
    && (forall j :: 0 <= j < i ==> !p.futures[j].phase.Done?)
    && if i == |p.futures| then q == p && r == None else ResolvedAt(p, i, q, r)
  }

  lemma WorkerSlots(p: PoolState, e: WorkerEvent)
    ensures Worker(p, e).usedSlots <= p.usedSlots
  {
  }

  lemma StillThere(p: PoolState, q: PoolState)
    requires Worked(p, q)
    ensures |q.futures| == |p.futures|
  {
    var es :| Workers(p, es) == q;
    WorkersKeepCount(p, es);
  }

  lemma {:induction false} WorkersKeepCount(p: PoolState, es: seq<WorkerEvent>)
    ensures |Workers(p, es).futures| == |p.futures|
    decreases es
  {
    if es != [] {
      WorkersKeepCount(Worker(p, es[0]), es[1..]);
    }
  }

  lemma TwoEvents(p: PoolState, e: WorkerEvent, e': WorkerEvent)
    ensures Workers(p, [e, e']) == Worker(Worker(p, e), e')
  {
    WorkersAppend(p, [e], e');
    assert [e] + [e'] == [e, e'];
    assert Workers(p, [e]) == Workers(Worker(p, e), [e][1..]);
  }

  lemma EnqueueKeepsSound(p: PoolState, f: Future)
    requires Sound(p) && f.phase.Queued?
    requires f.phase.task.Pull? ==> SameRoute(p, f, f.phase.task.cell)
    ensures Sound(Enqueue(p, f))
  {
    TotalAppend(p.futures, f, Occupies);
  }

  lemma ConsumeKeepsSound(p: PoolState, i: nat)
    requires Sound(p) && i < |p.futures| && p.futures[i].phase.Done?
    ensures Sound(Consume(p, i))
  {
    TotalRemove(p.futures, i, Occupies);
    forall g | g in Consume(p, i).futures ensures g in p.futures {}
  }
}
