/**
  The handshake of a parallelized generator: the polling thread emits "call me in the pool" one at
  a time, a worker runs the call and takes the next element. The threads share two flags, and may
  switch between any two accesses to them. The async twin has the same states; it reports the end
  by an exception that resolves to None.
*/
module Handshake {
  import opened PipeFlow

  /** Where the wrapping generator stands: before the test of its outer loop, between that test and
      the test of the inner loop, or suspended in the inner loop, which yields None while a call is
      outstanding. */
  datatype Resume = OuterTest | InnerTest | InnerWait

  /** The closure cells shared by the polling thread and the workers. */
  datatype Cells = Cells(rest: seq<Yield>, busy: bool, exhausted: bool, resume: Resume)

  datatype Polled = Stopped | NotReady | Emitted

  function Fresh(elements: seq<Yield>): Cells {
    Cells(elements, false, false, OuterTest)
  }

  /** The test of the outer loop, if that is where the wrapping generator stands. */
  function Enter(c: Cells): Cells {
    if c.resume == OuterTest && !c.exhausted then c.(resume := InnerTest) else c
  }

  /** The rest of one `next` on the wrapping generator, after the outer test. */
  function Poll(c: Cells): (Cells, Polled) {
    if c.resume == OuterTest && c.exhausted then (c, Stopped)
    else if c.busy then (c.(resume := InnerWait), NotReady)
    else (c.(busy := true, resume := OuterTest), Emitted)
  }

  /** Whether the next poll emits a call: none is outstanding, and the outer test would not stop. */
  predicate Idle(c: Cells) {
    !c.busy && !(c.resume == OuterTest && c.exhausted)
  }

  lemma IdleEmits(c: Cells)
    requires Idle(c)
    ensures Idle(Enter(c)) && Poll(Enter(c)).1 == Emitted
  {
  }

  /** The first half of a call: a worker takes the next element, or finds the end. */
  function Draw(c: Cells): (Cells, Yield) {
    if c.rest == [] then (c.(exhausted := true), Nothing)
    else (c.(rest := c.rest[1..]), c.rest[0])
  }

  /** One whole run of an emitted call in a worker. A poll that reads the flags between its two
      halves gets what it would get before or after both, see `SplitCallUnseen`. */
  function Call(c: Cells): (Cells, Yield) {
    var (d, y) := Draw(c);
    (d.(busy := false), y)
  }

  /** A test between the two halves of a call has the outcome, and leaves what the other thread can
      see, that it has before the call or after it: the outer test as after, the inner as before. */
  lemma SplitCallUnseen(c: Cells)
    requires c.busy
    ensures Enter(Draw(c).0).(busy := false) == Enter(Call(c).0)
    ensures Poll(Draw(c).0).1 == Stopped <==> Poll(Call(c).0).1 == Stopped
    ensures c.resume != OuterTest ==>
              Poll(Draw(c).0).1 == Poll(c).1 == NotReady && Poll(Draw(c).0).0.(busy := false) == Call(Poll(c).0).0
  {
  }

  // ---------------------------------------------------------------------------------------
  // Every interleaving of the two threads

  /** Single accesses: the polling thread makes its next test; a worker takes an element for a call
      that was emitted; a worker that did so leaves the wrapper free and resolves the call. */
  datatype Event = Test | Take | Free

  /** `outstanding` calls emitted and not yet resolved, the elements `drawn` for those of them that
      run, what the calls resolved so far `received`, and how many calls were emitted `late`, that
      is, after the end was found. */
  datatype Talk = Talk(cells: Cells, outstanding: nat, drawn: seq<Yield>, received: seq<Yield>, late: nat)

  function Start(elements: seq<Yield>): Talk {
    Talk(Fresh(elements), 0, [], [], 0)
  }

  function Happen(t: Talk, e: Event): Talk {
    match e
    case Test =>
      if t.cells.resume == OuterTest then t.(cells := Enter(t.cells))
      else if Poll(t.cells).1 == Emitted then
        t.(cells := Poll(t.cells).0, outstanding := t.outstanding + 1,
           late := if t.cells.exhausted then t.late + 1 else t.late)
      else t.(cells := Poll(t.cells).0)
    case Take =>
      if |t.drawn| >= t.outstanding then t
      else t.(cells := Draw(t.cells).0, drawn := t.drawn + [Draw(t.cells).1])
    case Free =>
      if t.drawn == [] || t.outstanding == 0 then t
      else
        t.(cells := t.cells.(busy := false), outstanding := t.outstanding - 1,
           drawn := t.drawn[1..], received := t.received + [t.drawn[0]])
  }

  function Replay(t: Talk, events: seq<Event>): Talk
    decreases events
  {
    if events == [] then t else Replay(Happen(t, events[0]), events[1..])
  }

  /** All elements handed out, in order: those received and those on their way. */
  function Handed(t: Talk): seq<Yield> {
    t.received + t.drawn
  }

  /** What the k-th call gets. */
  function Element(elements: seq<Yield>, k: nat): Yield {
    if k < |elements| then elements[k] else Nothing
  }

  /** What holds between the polling thread and the workers at any time. */
  ghost predicate Orderly(t: Talk, elements: seq<Yield>) {
    var n := |Handed(t)|;
    && t.outstanding == (if t.cells.busy then 1 else 0)
    && |t.drawn| <= t.outstanding
    && t.late <= 1
    && (forall k :: 0 <= k < n ==> Handed(t)[k] == Element(elements, k))
    && (if t.cells.exhausted
        then
          && t.cells.rest == []
          && n + t.outstanding - |t.drawn| == |elements| + 1 + t.late && n > |elements|
          && (t.late == 1 ==> t.cells.resume == OuterTest)
          && (t.cells.busy && t.drawn == [] ==> t.late == 1)
          && (t.late == 0 && t.cells.busy ==> |t.drawn| == 1)
        else
          && t.late == 0
          && n <= |elements|
          && t.cells.rest == elements[n..])
  }

  lemma HappenKeepsOrder(t: Talk, e: Event, elements: seq<Yield>)
    requires Orderly(t, elements)
    ensures Orderly(Happen(t, e), elements)
  {
    match e {
      case Test =>
      case Take =>
        if |t.drawn| < t.outstanding {
          assert Handed(Happen(t, e)) == Handed(t) + [Draw(t.cells).1];
        }
      case Free =>
        if t.drawn != [] && t.outstanding != 0 {
          assert Handed(Happen(t, e)) == Handed(t);
        }
    }
  }

  lemma {:induction false} ReplayKeepsOrder(t: Talk, events: seq<Event>, elements: seq<Yield>)
    requires Orderly(t, elements)
    ensures Orderly(Replay(t, events), elements)
    decreases events
  {
    if events != [] {
      hide Orderly;
      HappenKeepsOrder(t, events[0], elements);
      ReplayKeepsOrder(Happen(t, events[0]), events[1..], elements);
    }
  }

  /** In every interleaving of single accesses at most one call is outstanding, the k-th call
      resolved receives the k-th element, at most one call is emitted after the end was found, every
      call beyond the elements receives None, and a wrapper that stops has handed over every
      element. */
  lemma HandshakeIsSafe(elements: seq<Yield>, events: seq<Event>)
    ensures
      var t := Replay(Start(elements), events);
      && t.outstanding <= 1
      && t.late <= 1
      && |t.received| + t.outstanding <= |elements| + 2
      && (forall k :: 0 <= k < |t.received| ==> t.received[k] == Element(elements, k))
      && (Poll(t.cells).1 == Stopped ==> elements <= t.received)
  {
    ReplayKeepsOrder(Start(elements), events, elements);
    var t := Replay(Start(elements), events);
    assert forall k :: 0 <= k < |t.received| ==> Handed(t)[k] == t.received[k];
  }

  /** Once the end was found by a wrapper that stands before its outer test, no call is emitted any
      more. */
  lemma {:induction false} NoneLate(t: Talk, events: seq<Event>)
    requires t.cells.exhausted && t.cells.resume == OuterTest
    ensures Replay(t, events).late == t.late
    decreases events
  {
    if events != [] {
      NoneLate(Happen(t, events[0]), events[1..]);
    }
  }

  /** `t` is reached by the step that finds the end. */
  ghost predicate EndFound(elements: seq<Yield>, events: seq<Event>) {
    && events != []
    && !Replay(Start(elements), events[..|events| - 1]).cells.exhausted
    && Replay(Start(elements), events).cells.exhausted
  }

  lemma {:induction false} ReplayOn(t: Talk, events: seq<Event>, more: seq<Event>)
    ensures Replay(t, events + more) == Replay(Replay(t, events), more)
    decreases events
  {
    if events == [] {
      assert events + more == more;
    } else {
      assert (events + more)[1..] == events[1..] + more;
      ReplayOn(Happen(t, events[0]), events[1..], more);
    }
  }

  lemma ReplayTwo(t: Talk, e: Event, f: Event)
    ensures Replay(t, [e, f]) == Happen(Happen(t, e), f)
  {
    assert [e, f][1..] == [f] && [f][1..] == [];
    assert Replay(Happen(t, e), [f]) == Replay(Happen(Happen(t, e), f), []);
  }

  /** A call can be emitted after the end was found if and only if the wrapper was past its outer test
      when that happened, between its two tests or suspended in the inner loop, neither of which
      looks at `exhausted` again; and then the next test of a free wrapper emits it. */
  lemma LateCallExactly(elements: seq<Yield>, events: seq<Event>)
    requires EndFound(elements, events)
    ensures
      var t := Replay(Start(elements), events);
      && ((exists more :: Replay(Start(elements), events + more).late == 1) <==> t.cells.resume != OuterTest)
      && (t.cells.resume != OuterTest ==> Replay(Start(elements), events + [Free, Test]).late == 1)
  {
    var t := Replay(Start(elements), events);
    var before := events[..|events| - 1];
    ReplayKeepsOrder(Start(elements), before, elements);
    ReplayKeepsOrder(Start(elements), events, elements);
    EndWasDrawn(elements, events);
    if t.cells.resume != OuterTest {
      ReplayOn(Start(elements), events, [Free, Test]);
      ReplayTwo(t, Free, Test);
    }
    forall more | Replay(Start(elements), events + more).late == 1 ensures t.cells.resume != OuterTest {
      ReplayOn(Start(elements), events, more);
      if t.cells.resume == OuterTest {
        NoneLate(t, more);
      }
    }
  }

  lemma EndWasDrawn(elements: seq<Yield>, events: seq<Event>)
    requires EndFound(elements, events)
    ensures
      var t := Replay(Start(elements), events);
      t.late == 0 && |t.drawn| == 1 && t.outstanding == 1
  {
    var before, last := events[..|events| - 1], events[|events| - 1];
    var s := Replay(Start(elements), before);
    ReplayKeepsOrder(Start(elements), before, elements);
    ReplayOn(Start(elements), before, [last]);
    assert before + [last] == events && [last][1..] == [];
    assert Replay(s, [last]) == Replay(Happen(s, last), []) == Happen(s, last);
  }

  /** The wrapper is suspended in its inner loop when its only call finds an empty generator. */
  lemma LateCallAfterWaiting()
    ensures EndFound([], [Test, Test, Test, Test, Take])
    ensures Replay(Start([]), [Test, Test, Test, Test, Take]).cells.resume == InnerWait
  {
    assert [Test, Test, Test, Test, Take][..4] == [Test, Test] + [Test, Test];
    assert [Test, Test, Test, Test, Take] == [Test, Test, Test, Test] + [Take];
    ReplayOn(Start([]), [Test, Test], [Test, Test]);
    ReplayTwo(Start([]), Test, Test);
    ReplayTwo(Happen(Happen(Start([]), Test), Test), Test, Test);
    ReplayOn(Start([]), [Test, Test, Test, Test], [Take]);
    var t := Happen(Happen(Happen(Happen(Start([]), Test), Test), Test), Test);
    assert [Take][1..] == [] && Replay(t, [Take]) == Replay(Happen(t, Take), []);
  }

  /** The worker finds the end between the two tests of one poll; the wrapper never waited. */
  lemma LateCallBetweenTests()
    ensures EndFound([], [Test, Test, Test, Take])
    ensures Replay(Start([]), [Test, Test, Test, Take]).cells.resume == InnerTest
  {
    assert [Test, Test, Test, Take][..3] == [Test, Test] + [Test];
    assert [Test, Test, Test, Take] == [Test, Test] + [Test, Take];
    ReplayOn(Start([]), [Test, Test], [Test]);
    ReplayOn(Start([]), [Test, Test], [Test, Take]);
    ReplayTwo(Start([]), Test, Test);
    var t := Happen(Happen(Start([]), Test), Test);
    ReplayTwo(t, Test, Take);
    assert [Test][1..] == [] && Replay(t, [Test]) == Replay(Happen(t, Test), []);
  }

  /** As long as elements remain and no call is outstanding, the next two tests emit a call. */
  lemma PollMakesProgress(elements: seq<Yield>, events: seq<Event>)
    ensures
      var t := Replay(Start(elements), events);
      t.outstanding == 0 && |t.received| < |elements| ==>
        Happen(t, Test).outstanding == 1 || Happen(Happen(t, Test), Test).outstanding == 1
  {
    ReplayKeepsOrder(Start(elements), events, elements);
  }

  // ---------------------------------------------------------------------------------------
  // The wrapper itself

  class ParallelGenerator {
    ghost const elements: seq<Yield>
    var rest: seq<Yield>
    var busy: bool
    var exhausted: bool
    var resume: Resume
    var drawn: seq<Yield>
    ghost var received: seq<Yield>
    ghost var late: nat

    ghost function State(): Talk
      reads this
    {
      Talk(Cells(rest, busy, exhausted, resume), if busy then 1 else 0, drawn, received, late)
    }

    ghost predicate Valid()
      reads this
    {
      Orderly(State(), elements)
    }

    /** How many calls were emitted. */
    ghost function Emissions(): nat
      reads this
    {
      |received| + if busy then 1 else 0
    }

    constructor (elements: seq<Yield>)
      ensures Valid() && this.elements == elements && received == drawn == [] && Emissions() == 0
    {
      this.elements := elements;
      rest, busy, exhausted, resume := elements, false, false, OuterTest;
      drawn, received, late := [], [], 0;
    }

    /** A worker runs the first half of a call: it draws the next element, if a call waits for that. */
    method TakeElement()
      requires Valid()
      modifies this`rest, this`exhausted, this`drawn
      ensures Valid()
      ensures old(busy && drawn == []) ==> drawn == [Element(elements, |received|)]
      ensures !old(busy && drawn == []) ==> drawn == old(drawn)
    {
      ghost var before := State();
      if busy && drawn == [] {
        if rest == [] {
          exhausted, drawn := true, [Nothing];
        } else {
          drawn, rest := [rest[0]], rest[1..];
        }
        assert State() == Happen(before, Take);
        assert Handed(before) == received && Handed(State()) == received + drawn;
      }
      HappenKeepsOrder(before, Take, elements);
      assert drawn != [] && drawn != before.drawn ==> Handed(State())[|received|] == drawn[0];
    }

    /** A worker runs the second half of a call, which resolves. */
    method FreeWrapper()
      requires Valid()
      modifies this`busy, this`drawn, this`received
      ensures Valid()
      ensures old(drawn) != [] ==>
                !busy && drawn == [] && received == old(received) + [Element(elements, |old(received)|)]
      ensures old(drawn) == [] ==> unchanged(this)
    {
      ghost var before := State();
      if drawn != [] {
        assert Handed(before)[|received|] == drawn[0];
        received := received + [drawn[0]];
        drawn := drawn[1..];
        busy := false;
        assert State() == Happen(before, Free);
      }
      HappenKeepsOrder(before, Free, elements);
    }

    /** Workers do any number of halves of calls. */
    method RunWorkers()
      requires Valid()
      modifies this`rest, this`exhausted, this`drawn, this`busy, this`received
      ensures Valid() && old(received) <= received && Emissions() == old(Emissions()) && (old(exhausted) ==> exhausted)
    {
      var steps: nat := *;
      while steps > 0
        invariant Valid() && old(received) <= received && Emissions() == old(Emissions())
                  && (old(exhausted) ==> exhausted)
      {
        var taking: bool := *;
        if taking {
          TakeElement();
        } else {
          FreeWrapper();
        }
        steps := steps - 1;
      }
    }

    /** The test of the outer loop. */
    method TestOuter() returns (stopped: bool)
      requires Valid() && resume == OuterTest
      modifies this`resume
      ensures Valid()
      ensures stopped ==> resume == OuterTest && elements <= received && Emissions() <= |elements| + 2
      ensures !stopped ==> resume == InnerTest
    {
      ghost var before := State();
      stopped := exhausted;
      if stopped {
        assert forall k :: 0 <= k < |received| ==> Handed(before)[k] == received[k];
      } else {
        resume := InnerTest;
        assert State() == Happen(before, Test);
        HappenKeepsOrder(before, Test, elements);
      }
    }

    /** The test of the inner loop: a call is emitted just when none is outstanding. */
    method TestInner() returns (emitted: bool)
      requires Valid() && resume != OuterTest
      modifies this`resume, this`busy, this`late
      ensures Valid() && emitted == !old(busy)
      ensures Emissions() == old(Emissions()) + if emitted then 1 else 0
      ensures late == old(late) + if emitted && exhausted then 1 else 0
    {
      ghost var before := State();
      emitted := !busy;
      if busy {
        resume := InnerWait;
      } else {
        late := if exhausted then late + 1 else late;
        busy, resume := true, OuterTest;
      }
      assert State() == Happen(before, Test);
      HappenKeepsOrder(before, Test, elements);
    }

    /** One `next` of the polling thread, with workers acting before, between and after its tests: one
        call is emitted, when every call before has resolved, or none is; and it stops only when every
        element was received. */
    method Next() returns (polled: Polled)
      requires Valid()
      modifies this
      ensures Valid() && old(received) <= received
      ensures Emissions() == old(Emissions()) + if polled == Emitted then 1 else 0
      ensures polled == Stopped ==> elements <= received && Emissions() <= |elements| + 2
    {
      hide Orderly;
      RunWorkers();
      if resume == OuterTest {
        var stopped := TestOuter();
        if stopped {
          return Stopped;
        }
        RunWorkers();
      }
      var emitted := TestInner();
      polled := if emitted then Emitted else NotReady;
      RunWorkers();
    }

    /** Polling until the wrapper stops, or at most `patience` times: the calls that resolve hand over
        the elements in order, each once, and at the end all of them. */
    method Exhaust(patience: nat) returns (stopped: bool)
      requires Valid()
      modifies this
      ensures Valid() && old(received) <= received
      ensures received <= elements + [Nothing, Nothing] && late <= 1
      ensures stopped ==> elements <= received
    {
      stopped := false;
      var left := patience;
      while left > 0 && !stopped
        invariant Valid() && old(received) <= received && (stopped ==> elements <= received)
      {
        var polled := Next();
        stopped := polled == Stopped;
        left := left - 1;
      }
      assert forall k :: 0 <= k < |received| ==> Handed(State())[k] == received[k];
    }
  }

  // ---------------------------------------------------------------------------------------
  // The asynchronous twin

  /** The first half of an awaitable: it looks at `exhausted` before it asks for an element, and the
      end is an exception that resolves to None. */
  function AsyncDraw(c: Cells): (Cells, Yield) {
    if c.exhausted || c.rest == [] then (c.(exhausted := true), Nothing)
    else (c.(rest := c.rest[1..]), c.rest[0])
  }

  function HappenAsync(t: Talk, e: Event): Talk {
    if e != Take || |t.drawn| >= t.outstanding then Happen(t, e)
    else t.(cells := AsyncDraw(t.cells).0, drawn := t.drawn + [AsyncDraw(t.cells).1])
  }

  function ReplayAsync(t: Talk, events: seq<Event>): Talk
    decreases events
  {
    if events == [] then t else ReplayAsync(HappenAsync(t, events[0]), events[1..])
  }

  lemma {:induction false} AsyncAlikeFrom(t: Talk, events: seq<Event>, elements: seq<Yield>)
    requires Orderly(t, elements)
    ensures ReplayAsync(t, events) == Replay(t, events)
    decreases events
  {
    if events != [] {
      assert HappenAsync(t, events[0]) == Happen(t, events[0]);
      HappenKeepsOrder(t, events[0], elements);
      AsyncAlikeFrom(Happen(t, events[0]), events[1..], elements);
    }
  }

  /** In every interleaving of single accesses the asynchronous wrapper goes through the same states
      and hands over the same elements as the parallel one, so that all that holds of that holds of
      it. */
  lemma AsyncIsAlike(elements: seq<Yield>, events: seq<Event>)
    ensures ReplayAsync(Start(elements), events) == Replay(Start(elements), events)
  {
    AsyncAlikeFrom(Start(elements), events, elements);
  }
}
