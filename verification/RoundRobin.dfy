/**
  The order in which the iterator polls its sources: backwards, wrapping around, dropping a
  source when it has ended.
*/
module RoundRobin {
  /** The sources by identity, and the position polled last. */
  datatype Ring = Ring(ids: seq<nat>, index: nat)

  predicate InRange(r: Ring) {
    r.index <= |r.ids|
  }

  predicate Distinct(ids: seq<nat>) {
    forall i, j :: 0 <= i < j < |ids| ==> ids[i] != ids[j]
  }

  /** The position polled next: one back, and from the first to the last. */
  function Turn(r: Ring): nat
    requires InRange(r) && r.ids != []
  {
    if r.index == 0 then |r.ids| - 1 else r.index - 1
  }

  /** One position back, modulo the number of sources. */
  function Back(index: nat, n: nat): (r: nat)
    requires index <= n && n > 0
    ensures r == if index == 0 then n - 1 else index - 1
  {
    assert index == 0 ==> -1 == -1 * n + (n - 1);
    (index - 1) % n
  }

  /** The ring after the next poll; the polled source leaves it if it has ended. */
  function Take(r: Ring, ended: bool): Ring
    requires InRange(r) && r.ids != []
    ensures InRange(Take(r, ended))
  {
    var i := Turn(r);
    if ended then Ring(r.ids[..i] + r.ids[i + 1..], i) else r.(index := i)
  }

  /** The index moves although nothing was polled. */
  function Skip(r: Ring): Ring
    requires InRange(r) && r.ids != []
    ensures InRange(Skip(r))
  {
    r.(index := Turn(r))
  }

  /** The ring after polls with these outcomes, as long as sources remain. */
  function After(r: Ring, outcomes: seq<bool>): Ring
    requires InRange(r)
    ensures InRange(After(r, outcomes))
    decreases outcomes
  {
    if outcomes == [] || r.ids == [] then r else After(Take(r, outcomes[0]), outcomes[1..])
  }

  /** The identities polled, in order. */
  function Polls(r: Ring, outcomes: seq<bool>): seq<nat>
    requires InRange(r)
    decreases outcomes
  {
    if outcomes == [] || r.ids == [] then []
    else [r.ids[Turn(r)]] + Polls(Take(r, outcomes[0]), outcomes[1..])
  }

  lemma {:induction false} AfterConcat(r: Ring, outcomes: seq<bool>, more: seq<bool>)
    requires InRange(r)
    ensures After(r, outcomes + more) == After(After(r, outcomes), more)
    decreases outcomes
  {
    if outcomes == [] {
      assert outcomes + more == more;
    } else if r.ids != [] {
      assert (outcomes + more)[1..] == outcomes[1..] + more;
      AfterConcat(Take(r, outcomes[0]), outcomes[1..], more);
    }
  }

  lemma AfterOneMore(r: Ring, outcomes: seq<bool>, ended: bool)
    requires InRange(r) && After(r, outcomes).ids != []
    ensures After(r, outcomes + [ended]) == Take(After(r, outcomes), ended)
  {
    AfterConcat(r, outcomes, [ended]);
    var s := After(r, outcomes);
    assert After(s, [ended]) == After(Take(s, ended), [ended][1..]);
  }

  lemma {:induction false} PollsConcat(r: Ring, outcomes: seq<bool>, more: seq<bool>)
    requires InRange(r)
    ensures Polls(r, outcomes + more) == Polls(r, outcomes) + Polls(After(r, outcomes), more)
    decreases outcomes
  {
    if outcomes == [] {
      assert outcomes + more == more;
    } else if r.ids != [] {
      assert (outcomes + more)[1..] == outcomes[1..] + more;
      PollsConcat(Take(r, outcomes[0]), outcomes[1..], more);
    }
  }

  lemma PollsOneMore(r: Ring, outcomes: seq<bool>, ended: bool)
    requires InRange(r) && After(r, outcomes).ids != []
    ensures Polls(r, outcomes + [ended]) == Polls(r, outcomes) + [After(r, outcomes).ids[Turn(After(r, outcomes))]]
  {
    PollsConcat(r, outcomes, [ended]);
    var s := After(r, outcomes);
    assert Polls(s, [ended]) == [s.ids[Turn(s)]] + Polls(Take(s, ended), [ended][1..]);
  }

  lemma NothingPolled(r: Ring)
    requires InRange(r)
    ensures After(r, []) == r && Polls(r, []) == []
  {
  }

  /** Polling goes backwards: first to the source before the one polled last, then always to the one before
      that, and from the first source to the last; a source that has ended is left out from then on. */
  lemma PolledBackwards(r: Ring, ended: bool, next: bool)
    requires InRange(r) && r.ids != []
    ensures
      var n := |r.ids|;
      var i := if r.index > 0 then r.index - 1 else n - 1;
      && After(r, [ended]).ids == (if ended then r.ids[..i] + r.ids[i + 1..] else r.ids)
      && Polls(r, [ended]) == [r.ids[i]]
      && (n > 1 || !ended ==> Polls(r, [ended, next]) == [r.ids[i], r.ids[if i > 0 then i - 1 else n - 1]])
  {
    NothingPolled(r);
    OneBack(r, ended);
    hide After, Polls, Take, Turn;
    assert [ended] == [] + [ended] && [ended, next] == [ended] + [next];
    AfterOneMore(r, [], ended);
    PollsOneMore(r, [], ended);
    if |r.ids| > 1 || !ended {
      PollsOneMore(r, [ended], next);
    }
  }

  lemma OneBack(r: Ring, ended: bool)
    requires InRange(r) && r.ids != []
    ensures
      var n, s := |r.ids|, Take(r, ended);
      var i := if r.index > 0 then r.index - 1 else n - 1;
      && Turn(r) == i && InRange(s)
      && s.ids == (if ended then r.ids[..i] + r.ids[i + 1..] else r.ids)
      && (n > 1 || !ended ==> s.ids != [] && s.ids[Turn(s)] == r.ids[if i > 0 then i - 1 else n - 1])
  {
  }

  /** `r` is the ring `r0` after these polls; if the last frame served nothing although sources
      remain, the index has moved on once more. */
  predicate Turned(r0: Ring, outcomes: seq<bool>, r: Ring, served: bool) {
    InRange(r0) &&
    var s := After(r0, outcomes);
    r == if served || s.ids == [] then s else Skip(s)
  }

  /** In the middle of a frame: `r.index` is the position to be polled next. */
  predicate Turning(r0: Ring, outcomes: seq<bool>, r: Ring) {
    InRange(r0) &&
    var s := After(r0, outcomes);
    s.ids != [] && r == Skip(s)
  }

  lemma TurningKept(r0: Ring, outcomes: seq<bool>, r: Ring)
    requires Turning(r0, outcomes, r)
    ensures r.index < |r.ids|
    ensures Turned(r0, outcomes, r, false)
    ensures Turned(r0, outcomes + [false], r, true)
    ensures Turned(r0, outcomes + [true], Ring(r.ids[..r.index] + r.ids[r.index + 1..], r.index), true)
    ensures Turning(r0, outcomes + [false], Skip(r))
    ensures forall ended :: Polls(r0, outcomes + [ended]) == Polls(r0, outcomes) + [r.ids[r.index]]
  {
    AfterOneMore(r0, outcomes, false);
    AfterOneMore(r0, outcomes, true);
    forall ended ensures Polls(r0, outcomes + [ended]) == Polls(r0, outcomes) + [r.ids[r.index]] {
      PollsOneMore(r0, outcomes, ended);
    }
  }

  lemma TurnedOn(r0: Ring, outcomes: seq<bool>, r1: Ring, more: seq<bool>, r: Ring, served: bool)
    requires Turned(r0, outcomes, r1, true) && Turned(r1, more, r, served)
    ensures Turned(r0, outcomes + more, r, served)
    ensures Polls(r0, outcomes + more) == Polls(r0, outcomes) + Polls(r1, more)
  {
    AfterConcat(r0, outcomes, more);
    PollsConcat(r0, outcomes, more);
  }

  /** How many other polls come before the source at position `q` has its turn. */
  function Wait(r: Ring, q: nat): int
    requires InRange(r) && q < |r.ids|
  {
    if q < r.index then r.index - 1 - q else r.index - 1 - q + |r.ids|
  }

  lemma OneTurnLess(r: Ring, q: nat, ended: bool)
    requires InRange(r) && Distinct(r.ids) && q < |r.ids| && Turn(r) != q
    ensures
      var s := Take(r, ended);
      var q' := if ended && Turn(r) < q then q - 1 else q;
      && Distinct(s.ids) && q' < |s.ids| && s.ids[q'] == r.ids[q] != r.ids[Turn(r)]
      && Wait(s, q') == Wait(r, q) - 1 && |s.ids| <= |r.ids| && 0 <= Wait(r, q) < |r.ids| && Wait(r, q) > 0
  {
  }

  lemma {:induction false} TurnComes(r: Ring, q: nat, outcomes: seq<bool>)
    requires InRange(r) && Distinct(r.ids) && q < |r.ids|
    requires |outcomes| > Wait(r, q)
    ensures 0 <= Wait(r, q) < |r.ids|
    ensures |Polls(r, outcomes)| > Wait(r, q) && Polls(r, outcomes)[Wait(r, q)] == r.ids[q]
    ensures forall k :: 0 <= k < Wait(r, q) ==> Polls(r, outcomes)[k] != r.ids[q]
    decreases outcomes
  {
    var i := Turn(r);
    if i != q {
      var s := Take(r, outcomes[0]);
      var q' := if outcomes[0] && i < q then q - 1 else q;
      OneTurnLess(r, q, outcomes[0]);
      hide Wait, Distinct, Take, Turn;
      TurnComes(s, q', outcomes[1..]);
    }
  }

  /** Whatever the other sources do, and even if they end and are dropped in between, every source
      present is polled once it has waited its turn, which is within one cycle. */
  lemma ServedWithinOneCycle(r: Ring, id: nat, outcomes: seq<bool>)
    requires InRange(r) && Distinct(r.ids) && id in r.ids
    requires |outcomes| >= |r.ids|
    ensures exists k :: 0 <= k < |r.ids| && k < |Polls(r, outcomes)| && Polls(r, outcomes)[k] == id
  {
    var q :| 0 <= q < |r.ids| && r.ids[q] == id;
    TurnComes(r, q, outcomes);
  }

  /** A frame in which no source has anything to give polls every source exactly once. */
  lemma FruitlessFrame(r: Ring, outcomes: seq<bool>, id: nat)
    requires InRange(r) && Distinct(r.ids) && r.ids != []
    requires |outcomes| == |r.ids| && forall b :: b in outcomes ==> !b
    ensures |Polls(r, outcomes)| == |r.ids|
    ensures multiset(Polls(r, outcomes))[id] == if id in r.ids then 1 else 0
  {
    FramePolls(r, outcomes);
    var ps := Polls(r, outcomes);
    if id in r.ids {
      var q :| 0 <= q < |r.ids| && r.ids[q] == id;
      TurnComes(r, q, outcomes);
      var w := Wait(r, q);
      OnceOnly(ps, w);
    }
  }

  /** The position polled by the k-th poll of a frame that drops nobody. */
  function Position(r: Ring, k: nat): int
    requires InRange(r)
  {
    if k < r.index then r.index - 1 - k else r.index - 1 - k + |r.ids|
  }

  lemma {:induction false} FramePolls(r: Ring, outcomes: seq<bool>)
    requires InRange(r) && r.ids != []
    requires |outcomes| <= |r.ids| && forall b :: b in outcomes ==> !b
    ensures |Polls(r, outcomes)| == |outcomes| && After(r, outcomes).ids == r.ids
    ensures After(r, outcomes).index == if outcomes == [] then r.index else Position(r, |outcomes| - 1)
    ensures forall k :: 0 <= k < |outcomes| ==>
      0 <= Position(r, k) < |r.ids| && Polls(r, outcomes)[k] == r.ids[Position(r, k)]
    decreases outcomes
  {
    if outcomes != [] {
      var s := Take(r, false);
      assert !outcomes[0] by { assert outcomes[0] in outcomes; }
      assert forall b :: b in outcomes[1..] ==> b in outcomes;
      FramePolls(s, outcomes[1..]);
      forall k | 0 <= k < |outcomes|
        ensures 0 <= Position(r, k) < |r.ids| && Polls(r, outcomes)[k] == r.ids[Position(r, k)]
      {
        if k > 0 {
          assert Position(r, k) == Position(s, k - 1);
        }
      }
    }
  }

  lemma OnceOnly(ps: seq<nat>, w: nat)
    requires w < |ps|
    requires forall i, j :: 0 <= i < j < |ps| ==> ps[i] != ps[j]
    ensures multiset(ps)[ps[w]] == 1
  {
    assert ps == ps[..w] + ([ps[w]] + ps[w + 1..]);
    assert ps[w] !in ps[..w] && ps[w] !in ps[w + 1..];
  }

  /** After a fruitless frame the index has moved on once more without a poll, so the source that
      frame polled first waits a whole cycle again although it had its turn longest ago. */
  lemma FruitlessFrameSkipsItsFirst(r: Ring, outcomes: seq<bool>)
    requires InRange(r) && r.ids != []
    requires |outcomes| == |r.ids| && forall b :: b in outcomes ==> !b
    ensures
      After(r, outcomes).ids == r.ids &&
      var s := Skip(After(r, outcomes));
      && s.ids == r.ids && s.index == Turn(r)
      && Wait(After(r, outcomes), Turn(r)) == 0
      && Wait(s, Turn(r)) == |r.ids| - 1
  {
    FramePolls(r, outcomes);
  }
}
