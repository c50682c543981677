/**
  In which order the calls of one parallelized generator are resolved. The calls run one after the
  other, so the k-th one gets the k-th element; but the generator is free for the next call before
  the future of the last one is done, so later calls may be done first.
*/
module ResolutionOrder {
  /** A worker marks the future of a call done, or the main thread takes the first done one in order of
      submission, if there is one. */
  datatype Event = Finish(call: nat) | Look

  /** The calls that are done but not taken, and those taken, in order. */
  datatype Calls = Calls(done: set<nat>, taken: seq<nat>)

  ghost function First(done: set<nat>): (k: nat)
    requires done != {}
    ensures k in done && forall j: nat :: j in done ==> k <= j
    decreases |done|
  {
    var k :| k in done;
    var others := done - {k};
    assert done == others + {k};
    if others == {} then k
    else
      var m := First(others);
      if k <= m then k else m
  }

  ghost function Happen(c: Calls, e: Event): Calls {
    match e
    case Finish(k) => c.(done := c.done + {k})
    case Look => if c.done == {} then c else Calls(c.done - {First(c.done)}, c.taken + [First(c.done)])
  }

  ghost function Replay(c: Calls, events: seq<Event>): Calls
    decreases events
  {
    if events == [] then c else Replay(Happen(c, events[0]), events[1..])
  }

  /** The calls in the order in which they are done. */
  function Finishes(events: seq<Event>): seq<nat> {
    if events == [] then []
    else (if events[0].Finish? then [events[0].call] else []) + Finishes(events[1..])
  }

  predicate Increasing(ks: seq<nat>) {
    forall i, j :: 0 <= i < j < |ks| ==> ks[i] < ks[j]
  }

  function Elements(ks: seq<nat>): set<nat> {
    set k | k in ks
  }

  ghost predicate Before(a: set<nat>, b: set<nat>) {
    forall k, j :: k in a && j in b ==> k < j
  }

  /** What was taken is in order, and before all that is done or will be. */
  ghost predicate Ahead(c: Calls, coming: seq<nat>) {
    && Increasing(c.taken) && Increasing(coming)
    && Before(Elements(c.taken), c.done) && Before(Elements(c.taken), Elements(coming))
    && Before(c.done, Elements(coming))
  }

  lemma IncreasingParts(k: nat, ks: seq<nat>)
    ensures Increasing([k] + ks) ==> Increasing(ks) && Before({k}, Elements(ks))
    ensures Increasing(ks) && Before(Elements(ks), {k}) ==> Increasing(ks + [k])
    ensures Elements([k] + ks) == {k} + Elements(ks) && Elements(ks + [k]) == Elements(ks) + {k}
  {
    if Increasing([k] + ks) {
      forall i, j | 0 <= i < j < |ks| ensures ks[i] < ks[j] {
        assert ([k] + ks)[i + 1] == ks[i] && ([k] + ks)[j + 1] == ks[j];
      }
      forall j | j in Elements(ks) ensures k < j {
        var i :| 0 <= i < |ks| && ks[i] == j;
        assert ([k] + ks)[0] == k && ([k] + ks)[i + 1] == j;
      }
    }
    if Increasing(ks) && Before(Elements(ks), {k}) {
      forall i | 0 <= i < |ks| ensures ks[i] < k {
        assert ks[i] in Elements(ks) && k in {k};
      }
    }
  }

  lemma AheadFinished(c: Calls, k: nat, coming: seq<nat>)
    requires Ahead(c, [k] + coming)
    ensures Ahead(Happen(c, Finish(k)), coming)
  {
    hide Increasing, Elements;
    IncreasingParts(k, coming);
  }

  lemma AheadLooked(c: Calls, coming: seq<nat>)
    requires Ahead(c, coming)
    ensures Ahead(Happen(c, Look), coming)
  {
    hide Increasing, Elements;
    if c.done != {} {
      IncreasingParts(First(c.done), c.taken);
    }
  }

  lemma {:induction false} TakenInOrder(c: Calls, events: seq<Event>)
    requires Ahead(c, Finishes(events))
    ensures Increasing(Replay(c, events).taken)
    decreases events
  {
    if events != [] {
      hide Ahead;
      if events[0].Finish? {
        AheadFinished(c, events[0].call, Finishes(events[1..]));
      } else {
        assert [] + Finishes(events[1..]) == Finishes(events[1..]);
        AheadLooked(c, Finishes(events[1..]));
      }
      TakenInOrder(Happen(c, events[0]), events[1..]);
    } else {
      assert Increasing(c.taken);
    }
  }

  /** The main thread looks after every call that is done. */
  function Eagerly(finishes: seq<nat>): seq<Event> {
    if finishes == [] then [] else [Finish(finishes[0]), Look] + Eagerly(finishes[1..])
  }

  lemma {:induction false} EagerlyTaken(taken: seq<nat>, finishes: seq<nat>)
    ensures Finishes(Eagerly(finishes)) == finishes
    ensures Replay(Calls({}, taken), Eagerly(finishes)).taken == taken + finishes
    decreases finishes
  {
    if finishes != [] {
      var k, rest := finishes[0], Eagerly(finishes[1..]);
      var events := [Finish(k), Look] + rest;
      assert events[1..] == [Look] + rest && events[1..][1..] == rest;
      var c := Calls({}, taken);
      assert Happen(c, Finish(k)) == Calls({k}, taken);
      assert First({k}) == k && {k} - {k} == {};
      assert Happen(Calls({k}, taken), Look) == Calls({}, taken + [k]);
      assert Replay(c, events) == Replay(Calls({}, taken + [k]), rest);
      EagerlyTaken(taken + [k], finishes[1..]);
      assert taken + [k] + finishes[1..] == taken + finishes;
      assert [k] + finishes[1..] == finishes;
    }
  }

  /** The elements of a parallelized generator come out of the pool in order whenever the main thread
      looks, if and only if its calls are done in the order in which they were submitted. */
  lemma InOrderExactly(finishes: seq<nat>)
    ensures (forall events :: Finishes(events) == finishes ==> Increasing(Replay(Calls({}, []), events).taken))
            <==> Increasing(finishes)
  {
    hide Replay, Finishes, Increasing;
    if Increasing(finishes) {
      forall events | Finishes(events) == finishes ensures Increasing(Replay(Calls({}, []), events).taken) {
        NothingAhead(finishes);
        TakenInOrder(Calls({}, []), events);
      }
    } else {
      EagerlyTaken([], finishes);
      assert [] + finishes == finishes;
    }
  }

  lemma NothingAhead(finishes: seq<nat>)
    requires Increasing(finishes)
    ensures Ahead(Calls({}, []), finishes)
  {
  }
}
