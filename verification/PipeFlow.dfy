/**
  Items that travel through pipes, the network of pipes they travel through, and the
  reference meaning of both: `Flatten` says, without any scheduler, which items one item
  standing at a step of a pipe finally yields.
*/
module PipeFlow {
  /** A data item that is neither an iterator nor something to be run in the background. */
  type Data(!new, ==, 0)

  /** The meta object that accompanies an item (a table name, for instance). */
  type Meta(!new, ==, 0)

  /** What a generator may yield and a step may return: plain data, a (possibly parallelized)
      generator, or a callable or awaitable that has to be run in the pool first. */
  datatype Item =
    | Value(data: Data)
    | Generator(parallel: bool, elements: seq<Yield>)
    | Deferred(outcome: Yield)

  /** None, a bare item, or an item wrapped together with its own meta. */
  datatype Yield =
    | Nothing
    | Plain(item: Item)
    | Tagged(item: Item, meta: Meta)

  type PipeId = nat

  /** Where a fork sends an item: it will next be handled by step `step + 1` of `pipe`. */
  datatype Target = Target(pipe: PipeId, step: int)

  datatype Step =
    | Transform(f: (Data, Meta) -> Yield)
    | Fork(targets: seq<Target>)

  /** The pipes being extracted. `rank` is larger for a parent than for its children. Position 0
      of a pipe without parent holds its generator, which is never called as a step. */
  datatype Network = Network(pipes: map<PipeId, seq<Step>>, rank: map<PipeId, nat>)

  /** A fork of pipe `p` leads to the start of a pipe below `p` or to the very end of `p`. */
  predicate Downstream(net: Network, p: PipeId, t: Target) {
    && p in net.pipes && p in net.rank
    && t.pipe in net.pipes && t.pipe in net.rank
    && |net.pipes[t.pipe]| > 0
    && if t.pipe == p then t.step == |net.pipes[p]| - 1 else net.rank[t.pipe] < net.rank[p] && t.step == -1
  }

  /** Forks are tail steps and lead downstream. */
  ghost predicate Routed(net: Network) {
    forall p, i :: p in net.pipes && 0 <= i < |net.pipes[p]| && net.pipes[p][i].Fork? ==>
      && i == |net.pipes[p]| - 1
      && forall t :: t in net.pipes[p][i].targets ==> Downstream(net, p, t)
  }

  /** An item may stand at `step` of `pipe` only if the pipe has such a step (-1: before the first). */
  predicate Located(net: Network, step: int, pipe: PipeId) {
    pipe in net.pipes && -1 <= step < |net.pipes[pipe]|
  }

  /** A fully processed item as it leaves the iterator. */
  datatype PipeItem = PipeItem(data: Data, step: int, pipe: PipeId, meta: Meta)

  function Rank(net: Network, pipe: PipeId): nat {
    if pipe in net.rank then net.rank[pipe] else 0
  }

  function StepsLeft(net: Network, step: int, pipe: PipeId): nat {
    if Located(net, step, pipe) then |net.pipes[pipe]| - 1 - step else 0
  }

  // ---------------------------------------------------------------------------------------
  // Reference meaning

  /** All items that `item`, standing at `step` of `pipe`, finally yields, in depth-first order. */
  ghost function Flatten(net: Network, item: Item, step: int, pipe: PipeId, meta: Meta): seq<PipeItem>
    requires Routed(net)
    decreases Rank(net, pipe), 2 * StepsLeft(net, step, pipe), item, 1
  {
    match item
    case Value(data) =>
      if !Located(net, step, pipe) then []
      else if step == |net.pipes[pipe]| - 1 then [PipeItem(data, step, pipe, meta)]
      else (
        match net.pipes[pipe][step + 1]
        case Transform(f) => FlattenYield(net, f(data, meta), step + 1, pipe, meta)
        case Fork(targets) => FlattenFork(net, data, meta, pipe, targets)
      )
    case Generator(_, elements) => FlattenAll(net, elements, step, pipe, meta)
    case Deferred(outcome) => FlattenYield(net, outcome, step, pipe, meta)
  }

  ghost function FlattenYield(net: Network, y: Yield, step: int, pipe: PipeId, meta: Meta): seq<PipeItem>
    requires Routed(net)
    decreases Rank(net, pipe), 2 * StepsLeft(net, step, pipe), y, 2
  {
    match y
    case Nothing => []
    case Plain(item) => Flatten(net, item, step, pipe, meta)
    case Tagged(item, own) => Flatten(net, item, step, pipe, own)
  }

  ghost function FlattenAll(net: Network, ys: seq<Yield>, step: int, pipe: PipeId, meta: Meta): seq<PipeItem>
    requires Routed(net)
    decreases Rank(net, pipe), 2 * StepsLeft(net, step, pipe), ys, 0
  {
    if ys == [] then []
    else FlattenYield(net, ys[0], step, pipe, meta) + FlattenAll(net, ys[1..], step, pipe, meta)
  }

  /** What the generator of a fork of pipe `from` yields for one item. */
  ghost function FlattenFork(net: Network, data: Data, meta: Meta, from: PipeId, targets: seq<Target>): seq<PipeItem>
    requires Routed(net)
    decreases Rank(net, from), 1, targets, 0
  {
    if targets == [] then []
    else
      (if Downstream(net, from, targets[0])
       then Flatten(net, Value(data), targets[0].step, targets[0].pipe, meta) else [])
      + FlattenFork(net, data, meta, from, targets[1..])
  }

  // ---------------------------------------------------------------------------------------
  // Work: how many turns of the iterator an item can still cause

  /** A call into a parallelized generator is emitted, queued, run, finished and resolved. */
  const CALL_COST := 5

  ghost function Effort(net: Network, item: Item, step: int, pipe: PipeId, meta: Meta): nat
    requires Routed(net)
    decreases Rank(net, pipe), 2 * StepsLeft(net, step, pipe), item, 1
  {
    match item
    case Value(data) =>
      if !Located(net, step, pipe) then 1
      else if step == |net.pipes[pipe]| - 1 then 1
      else (
        match net.pipes[pipe][step + 1]
        case Transform(f) => 1 + EffortYield(net, f(data, meta), step + 1, pipe, meta)
        case Fork(targets) => 2 + EffortFork(net, data, meta, pipe, targets)
      )
    case Generator(parallel, elements) =>
      2 + EffortAll(net, elements, step, pipe, meta) + (if parallel then CALL_COST * (|elements| + 2) else 0)
    case Deferred(outcome) => CALL_COST + EffortYield(net, outcome, step, pipe, meta)
  }

  ghost function EffortYield(net: Network, y: Yield, step: int, pipe: PipeId, meta: Meta): nat
    requires Routed(net)
    decreases Rank(net, pipe), 2 * StepsLeft(net, step, pipe), y, 2
  {
    match y
    case Nothing => 0
    case Plain(item) => Effort(net, item, step, pipe, meta)
    case Tagged(item, own) => Effort(net, item, step, pipe, own)
  }

  ghost function EffortAll(net: Network, ys: seq<Yield>, step: int, pipe: PipeId, meta: Meta): nat
    requires Routed(net)
    decreases Rank(net, pipe), 2 * StepsLeft(net, step, pipe), ys, 0
  {
    if ys == [] then 0
    else 1 + EffortYield(net, ys[0], step, pipe, meta) + EffortAll(net, ys[1..], step, pipe, meta)
  }

  ghost function EffortFork(net: Network, data: Data, meta: Meta, from: PipeId, targets: seq<Target>): nat
    requires Routed(net)
    decreases Rank(net, from), 1, targets, 0
  {
    if targets == [] then 1
    else
      1 + (if Downstream(net, from, targets[0])
           then Effort(net, Value(data), targets[0].step, targets[0].pipe, meta) else 0)
      + EffortFork(net, data, meta, from, targets[1..])
  }

  // ---------------------------------------------------------------------------------------
  // Synchronous networks: nothing is deferred, parallelized, or yielded as None

  ghost predicate Immediate(item: Item)
    decreases item, 1
  {
    match item
    case Value(_) => true
    case Generator(parallel, elements) => !parallel && AllImmediate(elements)
    case Deferred(_) => false
  }

  ghost predicate ImmediateYield(y: Yield)
    decreases y, 2
  {
    match y
    case Nothing => true
    case Plain(item) => Immediate(item)
    case Tagged(item, _) => Immediate(item)
  }

  ghost predicate AllImmediate(ys: seq<Yield>)
    decreases ys, 0
  {
    ys != [] ==> ys[0] != Nothing && ImmediateYield(ys[0]) && AllImmediate(ys[1..])
  }

  ghost predicate Synchronous(net: Network) {
    forall p, i, data, meta :: p in net.pipes && 0 <= i < |net.pipes[p]| && net.pipes[p][i].Transform? ==>
      ImmediateYield(net.pipes[p][i].f(data, meta))
  }
}
