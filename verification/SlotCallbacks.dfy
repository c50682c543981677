/**
  Waiting for a free slot where a future is handed out as completed before the callback has run that
  gives its slot back.
*/
module SlotCallbacks {
  import opened Sequences

  /** Not completed; completed, but the callback has still to run; the slot was given back. */
  datatype Phase = Running | Completed | Vacated

  datatype Event = Complete(i: nat) | Callback(i: nat)

  function Used(futures: seq<Phase>): nat {
    if futures == [] then 0
    else Used(futures[..|futures| - 1]) + if futures[|futures| - 1].Vacated? then 0 else 1
  }

  function CompletedCount(futures: seq<Phase>): nat {
    if futures == [] then 0
    else CompletedCount(futures[..|futures| - 1]) + if futures[|futures| - 1].Running? then 0 else 1
  }

  function Happen(futures: seq<Phase>, e: Event): (r: seq<Phase>)
    ensures |r| == |futures|
  {
    if e.i >= |futures| then futures
    else
      match (e, futures[e.i])
      case (Complete(i), Running) => futures[i := Completed]
      case (Callback(i), Completed) => futures[i := Vacated]
      case _ => futures
  }

  function HappenAll(futures: seq<Phase>, events: seq<Event>): (r: seq<Phase>)
    ensures |r| == |futures|
    decreases events
  {
    if events == [] then futures else HappenAll(Happen(futures, events[0]), events[1..])
  }

  /** The futures when the wait returns: at once with a free slot, or when there is one as another
      completed future is handed out, or when all were. In every round workers act first. */
  function Wait(max: nat, futures: seq<Phase>, rounds: seq<seq<Event>>): seq<Phase>
    decreases rounds
  {
    if Used(futures) < max || rounds == [] then futures
    else Wait(max, HappenAll(futures, rounds[0]), rounds[1..])
  }

  /** One round for every future, and in each another one is completed. */
  ghost predicate HandedOut(futures: seq<Phase>, rounds: seq<seq<Event>>) {
    && |rounds| == |futures|
    && forall n :: 0 <= n <= |rounds| ==> CompletedCount(HappenAll(futures, Concat(rounds[..n]))) >= n
  }

  lemma {:induction false} UsedUpdate(futures: seq<Phase>, i: nat, phase: Phase)
    requires i < |futures|
    ensures Used(futures[i := phase]) + (if futures[i].Vacated? then 0 else 1)
            == Used(futures) + if phase.Vacated? then 0 else 1
    decreases futures
  {
    var n := |futures| - 1;
    if i < n {
      assert futures[i := phase][..n] == futures[..n][i := phase];
      UsedUpdate(futures[..n], i, phase);
    } else {
      assert futures[i := phase][..n] == futures[..n];
    }
  }

  /** Slots are only given back meanwhile. */
  lemma {:induction false} UsedLess(futures: seq<Phase>, events: seq<Event>)
    ensures Used(HappenAll(futures, events)) <= Used(futures)
    decreases events
  {
    if events != [] {
      var e := events[0];
      if Happen(futures, e) != futures {
        UsedUpdate(futures, e.i, Happen(futures, e)[e.i]);
      }
      UsedLess(Happen(futures, e), events[1..]);
    }
  }

  lemma {:induction false} HappenConcat(futures: seq<Phase>, a: seq<Event>, b: seq<Event>)
    ensures HappenAll(futures, a + b) == HappenAll(HappenAll(futures, a), b)
    decreases a
  {
    if a == [] {
      assert a + b == b;
    } else {
      assert (a + b)[1..] == a[1..] + b;
      HappenConcat(Happen(futures, a[0]), a[1..], b);
    }
  }

  lemma {:induction false} WaitEnds(max: nat, futures: seq<Phase>, rounds: seq<seq<Event>>)
    ensures Used(Wait(max, futures, rounds)) < max <==> Used(HappenAll(futures, Concat(rounds))) < max
    ensures Used(Wait(max, futures, rounds)) >= max ==> Wait(max, futures, rounds) == HappenAll(futures, Concat(rounds))
    decreases rounds
  {
    hide Used, HappenAll;
    if rounds == [] {
      NothingHappens(futures);
    } else {
      HappenConcat(futures, rounds[0], Concat(rounds[1..]));
      if Used(futures) < max {
        UsedLess(futures, Concat(rounds));
      } else {
        WaitEnds(max, HappenAll(futures, rounds[0]), rounds[1..]);
      }
    }
  }

  lemma NothingHappens(futures: seq<Phase>)
    ensures HappenAll(futures, []) == futures
  {
  }

  lemma {:induction false} AllCompleted(futures: seq<Phase>)
    ensures CompletedCount(futures) <= |futures|
    ensures CompletedCount(futures) == |futures| <==> forall i :: 0 <= i < |futures| ==> !futures[i].Running?
  {
    if futures != [] {
      AllCompleted(futures[..|futures| - 1]);
    }
  }

  /** With all slots used, waiting ends with a free slot if and only if some callback has run by the time
      the last completed future is handed out; otherwise it ends with every future completed and
      nothing but callbacks missing. */
  lemma FreeSlotExactly(max: nat, futures: seq<Phase>, rounds: seq<seq<Event>>)
    requires Used(futures) == max && HandedOut(futures, rounds)
    ensures Used(Wait(max, futures, rounds)) < max <==> Used(HappenAll(futures, Concat(rounds))) < Used(futures)
    ensures
      var end := Wait(max, futures, rounds);
      Used(end) >= max ==> Used(end) == max && forall i :: 0 <= i < |end| ==> !end[i].Running?
  {
    hide Used, Wait, CompletedCount, HappenAll;
    WaitEnds(max, futures, rounds);
    UsedLess(futures, Concat(rounds));
    assert rounds[..|rounds|] == rounds;
    AllCompleted(HappenAll(futures, Concat(rounds)));
  }

  /** With one slot: its future is handed out before its callback has run, so waiting ends without a free
      slot, and the next submission takes a second one. */
  lemma OneSlotOverdrawn()
    ensures HandedOut([Running], [[Complete(0)]])
    ensures
      var end := Wait(1, [Running], [[Complete(0)]]);
      end == [Completed] && Used(end) == 1 && Used(end + [Running]) == 2
  {
    var rounds: seq<seq<Event>> := [[Complete(0)]];
    assert [Running][0 := Completed] == [Completed];
    assert HappenAll([Running], [Complete(0)]) == HappenAll(Happen([Running], Complete(0)), [Complete(0)][1..]);
    assert HappenAll([Running], [Complete(0)]) == [Completed];
    assert [Running][..0] == [] && [Completed][..0] == [] && ([Completed] + [Running])[..1] == [Completed];
    assert Used([Running]) == 1 && Used([Completed]) == 1 && CompletedCount([Completed]) == 1;
    assert Wait(1, [Running], rounds) == Wait(1, [Completed], rounds[1..]);
    ConcatOne([Complete(0)]);
    assert rounds[..0] == [] && rounds[..1] == rounds;
    ConcatOne<Event>([]);
    forall n | 0 <= n <= 1 ensures CompletedCount(HappenAll([Running], Concat(rounds[..n]))) >= n {
    }
  }
}
