/**
  Which sources the iterator asked, and what came of it: a source that has an item to give keeps it
  until it is asked, and is then the one that is served.
*/
module PollOrder {
  import opened Options
  import opened PipeFlow
  import opened Handshake
  import opened Concurrency
  import opened IteratorAccounts

  /** What a source has to give whatever the workers do: a parallelized generator the next call, unless
      one is outstanding or the end was found. */
  function Ready(s: Source, p: PoolState): Option<InFlight> {
    if s.stream.Wrapped? then
      if s.stream.cell < |p.closures| && Idle(p.closures[s.stream.cell].cells)
      then Some(InFlight(CallInto(s.stream.cell), s.step, s.pipe, s.meta))
      else None
    else PulledItem(Advance(s, Fresh([])).2)
  }

  /** What the source at `i` has to give, if it is there. */
  function ReadyAt(sources: seq<Source>, i: nat, p: PoolState): Option<InFlight> {
    if i < |sources| then Ready(sources[i], p) else None
  }

  ghost predicate DistinctIds(sources: seq<Source>) {
    forall i, j :: 0 <= i < j < |sources| ==> sources[i].id != sources[j].id
  }

  /** With nothing in the pool, a parallelized generator has a call to give unless it stands at its end. */
  lemma ReadyWithEmptyPool(s: Source, p: PoolState)
    requires s.stream.Wrapped? && s.stream.cell < |p.closures| && Balanced(p, -1) && p.futures == []
    ensures
      var c := p.closures[s.stream.cell].cells;
      Ready(s, p).None? <==> c.resume == OuterTest && c.exhausted
  {
    if p.closures[s.stream.cell].cells.busy {
      BusyHasFuture(p, s.stream.cell);
    }
  }

  // ---------------------------------------------------------------------------------------
  // What workers and polls leave as it was

  /** Every parallelized generator is at most one source. */
  ghost predicate OneSourceEach(sources: seq<Source>) {
    forall i, j :: 0 <= i < j < |sources| && sources[i].stream.Wrapped? ==> sources[i].stream != sources[j].stream
  }

  /** What has items ready in `p` has the same ready in `q`, but for the source `id`. */
  ghost predicate KeepsReady(sources: seq<Source>, p: PoolState, id: int, q: PoolState) {
    forall s :: s in sources && s.id != id && Ready(s, p).Some? ==> Ready(s, q) == Ready(s, p)
  }

  lemma FreeKeepsReady(sources: seq<Source>, p: PoolState, q: PoolState)
    requires FreeKept(p, q, -1)
    ensures KeepsReady(sources, p, -1, q)
  {
    hide Advance;
  }

  lemma WorkedKeepsReady(sources: seq<Source>, p: PoolState, q: PoolState, inHand: int)
    requires Balanced(p, inHand) && Worked(p, q)
    ensures KeepsReady(sources, p, -1, q)
  {
    hide Balanced, Worked, FreeKept;
    WorkedKeepsFree(p, q, inHand);
    FreeKeepsReady(sources, p, q);
  }

  /** The pool when the polling thread makes its inner test: nothing that is free was touched, but that
      the source itself passed its outer test. */
  lemma ReachedKeepsFree(s: Source, p: PoolState, q: PoolState)
    requires Balanced(p, -1) && Reached(s, p, q)
    ensures FreeKept(p, q, if s.stream.Wrapped? then s.stream.cell else -1)
    ensures s.stream.Wrapped? && s.stream.cell < |p.closures| && !p.closures[s.stream.cell].cells.busy ==>
              s.stream.cell < |q.closures|
              && CellsOf(s, q) == Enter(CellsOf(s, p))
  {
    var m :| Worked(p, m) && Worked(Entering(s, m), q);
    hide Balanced, Worked, Enter;
    WorkedKeepsFree(p, m, -1);
    WorkedBalanced(p, m);
    EnteringBalanced(s, m);
    WorkedKeepsFree(Entering(s, m), q, -1);
    EnterKeepsBusy(CellsOf(s, m));
  }

  lemma WorkedBalanced(p: PoolState, q: PoolState)
    requires Balanced(p, -1) && Worked(p, q)
    ensures Balanced(q, -1)
  {
    var es :| Workers(p, es) == q;
    WorkersBalanced(p, es);
  }

  lemma {:induction false} WorkersBalanced(p: PoolState, es: seq<WorkerEvent>)
    requires Balanced(p, -1)
    ensures Balanced(Workers(p, es), -1)
    decreases es
  {
    if es != [] {
      WorkerKeepsBalance(p, es[0], -1);
      WorkersBalanced(Worker(p, es[0]), es[1..]);
    }
  }

  lemma EnterKeepsBusy(c: Cells)
    ensures Enter(c).busy == c.busy
  {
  }

  /** A source that has something to give gives it when it is polled, whatever the workers do meanwhile. */
  lemma ReadyGives(s: Source, p: PoolState, q: PoolState)
    requires Balanced(p, -1) && Reached(s, p, q) && Ready(s, p).Some?
    ensures Advance(s, CellsOf(s, q)).2 == Got(Ready(s, p).value)
  {
    hide Balanced, Reached;
    if s.stream.Wrapped? {
      ReachedKeepsFree(s, p, q);
      IdleEmits(CellsOf(s, p));
    }
  }

  /** `s` is polled in `q`, reached from `p`: what the other sources have ready stays ready. */
  lemma PollKeepsReady(sources: seq<Source>, i: nat, p: PoolState, q: PoolState, d: Cells)
    requires OneSourceEach(sources) && i < |sources| && Balanced(p, -1) && Reached(sources[i], p, q)
    ensures KeepsReady(sources, p, sources[i].id, WithCells(sources[i], q, d))
  {
    hide Balanced, Reached, Advance;
    var s := sources[i];
    ReachedKeepsFree(s, p, q);
    forall t | t in sources && t.id != s.id && Ready(t, p).Some? ensures Ready(t, WithCells(s, q, d)) == Ready(t, p) {
      if t.stream.Wrapped? {
        var j :| 0 <= j < |sources| && sources[j] == t;
        assert t.stream != s.stream by {
          assert i < j || j < i;
        }
      }
    }
  }

  // ---------------------------------------------------------------------------------------
  // Sources that gave nothing

  /** `t` is `s`, after it gave None some times. */
  predicate Skipped(s: Source, t: Source)
    decreases if s.stream.Listed? then |s.stream.rest| else 0
  {
    || t == s
    || (s.stream.Listed? && s.stream.rest != [] && s.stream.rest[0] == Nothing
        && Skipped(s.(stream := Listed(s.stream.rest[1..])), t))
  }

  lemma {:induction false} SkippedOn(s: Source, t: Source, u: Source)
    requires Skipped(s, t) && Skipped(t, u)
    ensures Skipped(s, u) && u.id == s.id
    decreases if s.stream.Listed? then |s.stream.rest| else 0
  {
    if t != s {
      SkippedOn(s.(stream := Listed(s.stream.rest[1..])), t, u);
    } else {
      SkippedKeepsId(t, u, PoolState([], 0, []));
    }
  }

  lemma {:induction false} SkippedKeepsId(s: Source, t: Source, p: PoolState)
    requires Skipped(s, t)
    ensures t.id == s.id && (Ready(s, p).Some? ==> t == s)
    decreases if s.stream.Listed? then |s.stream.rest| else 0
  {
    if t != s {
      SkippedKeepsId(s.(stream := Listed(s.stream.rest[1..])), t, p);
    }
  }

  // ---------------------------------------------------------------------------------------
  // Polls of a list of sources

  /** Polling the `i`-th of `sources` in `p` gave `r`, which is what it had ready if it had, and left
      `after` and `q`, where the other sources have ready what they had. */
  ghost predicate PolledAt(sources: seq<Source>, p: PoolState, i: nat, after: seq<Source>, q: PoolState, r: Pulled) {
    && i < |sources|
    && (exists c :: after == sources[i := Advance(sources[i], c).0] && r == Advance(sources[i], c).2)
    && (Ready(sources[i], p).Some? ==> r == Got(Ready(sources[i], p).value))
    && KeepsReady(sources, p, sources[i].id, q)
  }

  /** None of the sources that were asked had an item ready. */
  ghost predicate NoneReady(sources: seq<Source>, p: PoolState, asked: seq<nat>) {
    forall s :: s in sources && s.id in asked ==> Ready(s, p).None?
  }

  /** Those that were not asked are as they were, with the same items ready. */
  ghost predicate Spared(sources: seq<Source>, p: PoolState, asked: seq<nat>, now: seq<Source>, q: PoolState) {
    forall s :: s in sources && s.id !in asked ==> s in now && (Ready(s, p).Some? ==> Ready(s, q) == Ready(s, p))
  }

  ghost predicate Traceable(sources: seq<Source>, t: Source) {
    exists s :: s in sources && Skipped(s, t)
  }

  /** From `sources`, `p` to `now`, `q`, those asked had nothing and gave nothing and those not asked are
      as they were. */
  ghost predicate Untaken(sources: seq<Source>, p: PoolState, asked: seq<nat>, now: seq<Source>, q: PoolState) {
    && (forall t :: t in now ==> Traceable(sources, t))
    && Spared(sources, p, asked, now, q)
    && NoneReady(sources, p, asked)
  }

  /** The source `id`, after it gave None some times, gave `x`. */
  ghost predicate Gives(sources: seq<Source>, id: nat, x: InFlight) {
    exists s, t, c :: s in sources && s.id == id && Skipped(s, t) && Advance(t, c).2 == Got(x)
  }

  /** From `sources`, `p` to `now`, `q`, `x` came from the source asked last, and is what it had ready if
      it had; none of those asked before had an item ready, and those not asked are as they were. */
  ghost predicate TakenFrom(sources: seq<Source>, p: PoolState, asked: seq<nat>, now: seq<Source>, q: PoolState,
                            x: InFlight) {
    && asked != [] && Gives(sources, asked[|asked| - 1], x)
    && (forall s :: s in sources && s.id == asked[|asked| - 1] && Ready(s, p).Some? ==> Ready(s, p) == Some(x))
    && NoneReady(sources, p, asked[..|asked| - 1])
    && Spared(sources, p, asked, now, q)
  }

  lemma SameId(sources: seq<Source>, s: Source, t: Source)
    requires DistinctIds(sources) && s in sources && t in sources && s.id == t.id
    ensures s == t
  {
    var i :| 0 <= i < |sources| && sources[i] == s;
    var j :| 0 <= j < |sources| && sources[j] == t;
    assert i < j || j < i || i == j;
  }

  /** A source with an item ready that was asked is the one that was served. */
  lemma ReadyIsServed(sources: seq<Source>, p: PoolState, asked: seq<nat>, now: seq<Source>, q: PoolState, x: InFlight,
                      s: Source)
    requires TakenFrom(sources, p, asked, now, q, x)
    requires s in sources && s.id in asked && Ready(s, p).Some?
    ensures s.id == asked[|asked| - 1] && s.id !in asked[..|asked| - 1] && Ready(s, p) == Some(x)
  {
    hide Ready, Gives, Spared;
    assert asked == asked[..|asked| - 1] + [asked[|asked| - 1]];
    assert s.id !in asked[..|asked| - 1];
  }

  /** `taken[j]` is the item that `s` had ready, taken from `s`. */
  ghost predicate Delivered(s: Source, p: PoolState, taken: seq<InFlight>, from: seq<nat>) {
    exists j :: 0 <= j < |taken| && j < |from| && from[j] == s.id && Ready(s, p) == Some(taken[j])
  }

  lemma DeliveredStill(s: Source, p: PoolState, taken: seq<InFlight>, from: seq<nat>, x: InFlight, id: nat)
    requires |taken| == |from|
    ensures Delivered(s, p, taken, from) ==> Delivered(s, p, taken + [x], from + [id])
    ensures s.id == id && Ready(s, p) == Some(x) ==> Delivered(s, p, taken + [x], from + [id])
  {
    hide Ready;
    if Delivered(s, p, taken, from) {
      var j :| 0 <= j < |taken| && from[j] == s.id && Ready(s, p) == Some(taken[j]);
      assert (from + [id])[j] == s.id && (taken + [x])[j] == taken[j];
    }
    if s.id == id && Ready(s, p) == Some(x) {
      assert (from + [id])[|taken|] == s.id && (taken + [x])[|taken|] == x;
    }
  }

  lemma NothingAsked(sources: seq<Source>, p: PoolState)
    ensures Untaken(sources, p, [], sources, p)
  {
    hide Ready;
    forall t | t in sources ensures Traceable(sources, t) {
      assert Skipped(t, t);
    }
  }

  lemma StillThere(sources: seq<Source>, p: PoolState, asked: seq<nat>, now: seq<Source>, q: PoolState, s: Source,
                   i: nat)
    requires DistinctIds(now) && Spared(sources, p, asked, now, q) && i < |now|
    requires s in sources && s.id == now[i].id
    ensures s.id in asked || (s == now[i] && (Ready(s, p).Some? ==> Ready(s, q) == Ready(s, p)))
  {
    hide Ready;
    if s.id !in asked {
      SameId(now, s, now[i]);
    }
  }

  /** Asking one more source leaves the others as they are. */
  lemma SparedOneMore(sources: seq<Source>, p: PoolState, asked: seq<nat>, now: seq<Source>, q: PoolState, i: nat,
                      after: seq<Source>, q': PoolState, r: Pulled)
    requires Spared(sources, p, asked, now, q) && PolledAt(now, q, i, after, q', r)
    ensures Spared(sources, p, asked + [now[i].id], after, q')
  {
    hide Ready, Advance;
    forall s | s in sources && s.id !in asked + [now[i].id]
      ensures s in after && (Ready(s, p).Some? ==> Ready(s, q') == Ready(s, p))
    {
      assert s in now && s.id != now[i].id;
      var j :| 0 <= j < |now| && now[j] == s;
      assert after[j] == s;
    }
  }

  /** One more source was asked and gave nothing, or had ended. */
  lemma AskedInVain(sources: seq<Source>, p: PoolState, asked: seq<nat>, now: seq<Source>, q: PoolState, i: nat,
                    after: seq<Source>, q': PoolState, r: Pulled)
    requires DistinctIds(now) && Untaken(sources, p, asked, now, q) && PolledAt(now, q, i, after, q', r) && !r.Got?
    ensures Untaken(sources, p, asked + [now[i].id], after, q')
    ensures r.Ended? ==> after == now
  {
    hide Skipped, Ready, Advance, DistinctIds, Spared, KeepsReady;
    var c :| after == now[i := Advance(now[i], c).0] && r == Advance(now[i], c).2;
    AdvanceInVain(now[i], c);
    SparedOneMore(sources, p, asked, now, q, i, after, q', r);
    forall t | t in after ensures Traceable(sources, t) {
      if t !in now {
        assert t == after[i] && now[i] in now && Traceable(sources, now[i]);
        var s :| s in sources && Skipped(s, now[i]);
        SkippedOn(s, now[i], t);
      }
    }
    forall s | s in sources && s.id in asked + [now[i].id] ensures Ready(s, p).None? {
      if s.id == now[i].id {
        StillThere(sources, p, asked, now, q, s, i);
      }
    }
    if r.Ended? {
      assert after == now;
    }
  }

  lemma AdvanceInVain(s: Source, c: Cells)
    requires !Advance(s, c).2.Got?
    ensures Skipped(s, Advance(s, c).0)
    ensures Advance(s, c).2.Ended? ==> Advance(s, c).0 == s
  {
    if s.stream.Listed? && s.stream.rest != [] {
      assert Skipped(s.(stream := Listed(s.stream.rest[1..])), Advance(s, c).0);
    }
  }

  /** One more source was asked and gave an item. */
  lemma AskedAndGot(sources: seq<Source>, p: PoolState, asked: seq<nat>, now: seq<Source>, q: PoolState, i: nat,
                    after: seq<Source>, q': PoolState, x: InFlight)
    requires DistinctIds(now) && Untaken(sources, p, asked, now, q) && PolledAt(now, q, i, after, q', Got(x))
    ensures TakenFrom(sources, p, asked + [now[i].id], after, q', x)
  {
    hide Skipped, Ready, Advance, DistinctIds, Spared, KeepsReady;
    var c :| after == now[i := Advance(now[i], c).0] && Got(x) == Advance(now[i], c).2;
    SparedOneMore(sources, p, asked, now, q, i, after, q', Got(x));
    assert now[i] in now && Traceable(sources, now[i]);
    var s :| s in sources && Skipped(s, now[i]);
    SkippedOn(s, now[i], now[i]) by { SkippedItself(now[i]); }
    var all := asked + [now[i].id];
    assert all[..|all| - 1] == asked && all[|all| - 1] == now[i].id;
    assert Gives(sources, now[i].id, x);
    forall b | b in sources && b.id == now[i].id && Ready(b, p).Some? ensures Ready(b, p) == Some(x) {
      StillThere(sources, p, asked, now, q, b, i);
    }
  }

  lemma SkippedItself(s: Source)
    ensures Skipped(s, s)
  {
  }

  /** A source that was asked is dropped. */
  lemma DroppedAsked(sources: seq<Source>, p: PoolState, asked: seq<nat>, now: seq<Source>, q: PoolState, i: nat)
    requires i < |now| && Untaken(sources, p, asked, now, q) && now[i].id in asked
    ensures Untaken(sources, p, asked, now[..i] + now[i + 1..], q)
  {
    hide Traceable, NoneReady, Ready;
    var after := now[..i] + now[i + 1..];
    forall t | t in after ensures t in now {
    }
    forall s | s in sources && s.id !in asked ensures s in after {
      var j :| 0 <= j < |now| && now[j] == s;
      if j < i {
        assert after[j] == s;
      } else {
        assert after[j - 1] == s;
      }
    }
  }

  lemma NoneReadyOn(sources: seq<Source>, p: PoolState, asked: seq<nat>, mid: seq<Source>, m: PoolState, more: seq<nat>)
    requires Untaken(sources, p, asked, mid, m) && NoneReady(mid, m, more)
    ensures NoneReady(sources, p, asked + more)
  {
    hide Ready, Traceable;
  }

  lemma SparedOn(sources: seq<Source>, p: PoolState, asked: seq<nat>, mid: seq<Source>, m: PoolState, more: seq<nat>,
                 now: seq<Source>, q: PoolState)
    requires Spared(sources, p, asked, mid, m) && Spared(mid, m, more, now, q)
    ensures Spared(sources, p, asked + more, now, q)
  {
    hide Ready;
  }

  /** Asking in vain, and then asking on in vain. */
  lemma UntakenOn(sources: seq<Source>, p: PoolState, asked: seq<nat>, mid: seq<Source>, m: PoolState, more: seq<nat>,
                  now: seq<Source>, q: PoolState)
    requires Untaken(sources, p, asked, mid, m) && Untaken(mid, m, more, now, q)
    ensures Untaken(sources, p, asked + more, now, q)
  {
    hide Skipped, Ready;
    NoneReadyOn(sources, p, asked, mid, m, more);
    SparedOn(sources, p, asked, mid, m, more, now, q);
    forall t | t in now ensures Traceable(sources, t) {
      TraceableOn(sources, mid, t);
    }
  }

  lemma TraceableOn(sources: seq<Source>, mid: seq<Source>, t: Source)
    requires (forall u :: u in mid ==> Traceable(sources, u)) && Traceable(mid, t)
    ensures Traceable(sources, t)
  {
    hide Skipped;
    var m :| m in mid && Skipped(m, t);
    assert Traceable(sources, m);
    var s :| s in sources && Skipped(s, m);
    SkippedOn(s, m, t);
  }

  /** Asking in vain, and then being served. */
  lemma TakenOn(sources: seq<Source>, p: PoolState, asked: seq<nat>, mid: seq<Source>, m: PoolState, more: seq<nat>,
                now: seq<Source>, q: PoolState, x: InFlight)
    requires DistinctIds(mid) && Untaken(sources, p, asked, mid, m) && TakenFrom(mid, m, more, now, q, x)
    ensures TakenFrom(sources, p, asked + more, now, q, x)
  {
    hide Skipped, Ready, Advance, Spared, DistinctIds;
    var all := asked + more;
    assert all[|all| - 1] == more[|more| - 1] && all[..|all| - 1] == asked + more[..|more| - 1];
    NoneReadyOn(sources, p, asked, mid, m, more[..|more| - 1]);
    SparedOn(sources, p, asked, mid, m, more, now, q);
    var b, t, c :| b in mid && b.id == more[|more| - 1] && Skipped(b, t) && Advance(t, c).2 == Got(x);
    assert Traceable(sources, b);
    var s :| s in sources && Skipped(s, b);
    SkippedOn(s, b, b) by { SkippedItself(b); }
    SkippedOn(s, b, t);
    assert Gives(sources, more[|more| - 1], x);
    forall u | u in sources && u.id == more[|more| - 1] && Ready(u, p).Some? ensures Ready(u, p) == Some(x) {
      SparedThere(sources, p, asked, mid, m, u);
    }
  }

  lemma SparedThere(sources: seq<Source>, p: PoolState, asked: seq<nat>, mid: seq<Source>, m: PoolState, s: Source)
    requires Untaken(sources, p, asked, mid, m) && s in sources && Ready(s, p).Some?
    ensures s in mid && Ready(s, m) == Ready(s, p)
  {
    hide Ready, Traceable;
    assert s.id !in asked;
  }
}
