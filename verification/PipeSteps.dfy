/**
  Where steps are placed in a pipe: appended steps by their affinity, and the index of the generator
  step through any edits.
*/
module PipeSteps {
  datatype Step = Step(id: nat, affinity: real)

  /** `genIdx` is where the generator is supposed to be. */
  datatype Steps = Steps(hasParent: bool, steps: seq<Step>, genIdx: int)

  datatype Edit = Append(step: Step) | Insert(step: Step, index: int) | Remove(index: int)

  datatype Outcome = Done | BeforeHead | HoldsGenerator | NoSuchStep

  // ---------------------------------------------------------------------------------------
  // Lists as Python has them: negative indices count from the end

  /** Where a list of `n` puts what is inserted at `index`: that far from the front, or from the end if
      negative, but never outside. */
  function InsertPos(n: nat, index: int): (at: nat)
    ensures at <= n
    ensures index >= 0 ==> at == index || (at == n && index > n)
    ensures index < 0 ==> n - at == 0 - index || (at == 0 && 0 - index > n)
  {
    if index > n then n else if index >= 0 then index else if index + n >= 0 then index + n else 0
  }

  predicate InRange(n: nat, index: int) {
    0 - n <= index < n
  }

  function Position(n: nat, index: int): (at: nat)
    requires InRange(n, index)
    ensures at < n && (index >= 0 ==> at == index) && (index < 0 ==> n - at == 0 - index)
  {
    if index >= 0 then index else index + n
  }

  // ---------------------------------------------------------------------------------------
  // Edits

  function InsertedAt(p: Steps, step: Step, index: int): Steps {
    // nothing goes before the head of a pipe without parent
    var i := if index == 0 && !p.hasParent then 1 else index;
    var at := InsertPos(|p.steps|, i);
    p.(steps := p.steps[..at] + [step] + p.steps[at..], genIdx := if i <= p.genIdx then p.genIdx + 1 else p.genIdx)
  }

  /** Behind the last step with at most the affinity `a`. */
  function Behind(steps: seq<Step>, a: real): (at: nat)
    ensures at <= |steps|
    ensures at > 0 ==> steps[at - 1].affinity <= a
    ensures forall i :: at <= i < |steps| ==> steps[i].affinity > a
  {
    if steps == [] then 0
    else if steps[|steps| - 1].affinity <= a then |steps|
    else Behind(steps[..|steps| - 1], a)
  }

  function Appended(p: Steps, step: Step): Steps {
    if p.steps == [] then p.(steps := [step]) else InsertedAt(p, step, Behind(p.steps, step.affinity))
  }

  function Inserted(p: Steps, step: Step, index: int): (Steps, Outcome) {
    if p.steps == [] then (Appended(p, step), Done)
    else if index == 0 && !p.hasParent then (p, BeforeHead)
    else (InsertedAt(p, step, index), Done)
  }

  function Removed(p: Steps, index: int): (Steps, Outcome) {
    if index == p.genIdx then (p, HoldsGenerator)
    else if !InRange(|p.steps|, index) then (p, NoSuchStep)
    else
      var at := Position(|p.steps|, index);
      (p.(steps := p.steps[..at] + p.steps[at + 1..], genIdx := if index < p.genIdx then p.genIdx - 1 else p.genIdx),
       Done)
  }

  function Edited(p: Steps, edit: Edit): Steps {
    match edit
    case Append(step) => Appended(p, step)
    case Insert(step, index) => Inserted(p, step, index).0
    case Remove(index) => Removed(p, index).0
  }

  function EditedAll(p: Steps, edits: seq<Edit>): Steps
    decreases edits
  {
    if edits == [] then p else Edited(EditedAll(p, edits[..|edits| - 1]), edits[|edits| - 1])
  }

  class Pipe {
    const hasParent: bool
    var steps: seq<Step>
    var genIdx: int

    function State(): Steps
      reads this
    {
      Steps(hasParent, steps, genIdx)
    }

    constructor (hasParent: bool)
      ensures State() == Steps(hasParent, [], 0)
    {
      this.hasParent, steps, genIdx := hasParent, [], 0;
    }

    method InsertAtPos(step: Step, index: int)
      modifies this
      ensures State() == InsertedAt(old(State()), step, index)
    {
      var i := index;
      if i == 0 && !hasParent {
        i := i + 1;
      }
      var at := InsertPos(|steps|, i);
      steps := steps[..at] + [step] + steps[at..];
      if i <= genIdx {
        genIdx := genIdx + 1;
      }
    }

    method AppendStep(step: Step)
      modifies this
      ensures State() == Appended(old(State()), step)
    {
      if |steps| > 0 {
        var index := |steps|;
        while index > 0
          invariant 0 <= index <= |steps| && State() == old(State())
          invariant Behind(steps, step.affinity) == Behind(steps[..index], step.affinity)
        {
          assert steps[..index][..index - 1] == steps[..index - 1];
          if steps[index - 1].affinity <= step.affinity {
            InsertAtPos(step, index);
            return;
          }
          index := index - 1;
        }
        // it precedes all of them
        InsertAtPos(step, 0);
      } else {
        steps := steps + [step];
      }
    }

    /** Puts a step at the given index and leaves the others in order, except before the head of a pipe
        without parent. The generator index stays right if the index is not negative or stands for a
        place at or before the generator, and only then. */
    method InsertStep(step: Step, index: int) returns (outcome: Outcome)
      modifies this
      ensures outcome == if old(steps) != [] && index == 0 && !hasParent then BeforeHead else Done
      ensures outcome == BeforeHead ==> State() == old(State())
      ensures outcome == Done ==>
                var at := InsertPos(|old(steps)|, index);
                |steps| == |old(steps)| + 1 && steps[at] == step && steps[..at] + steps[at + 1..] == old(steps)
      ensures forall gen :: Points(old(State()), gen) && gen != step ==>
                (Points(State(), gen) <==> index >= 0 || InsertPos(|old(steps)|, index) <= old(genIdx))
      ensures State() == Inserted(old(State()), step, index).0
    {
      hide Points;
      InsertMeans(State(), step, index);
      if |steps| == 0 {
        AppendStep(step);
        return Done;
      }
      if index == 0 && !hasParent {
        return BeforeHead;
      }
      InsertAtPos(step, index);
      return Done;
    }

    /** Takes out the step at the given index, counted from the end if negative, and leaves the others in
        order; what the generator index names is not taken out. The generator index stays right if the
        index is not negative or stands for a step before the generator, and only then. */
    method RemoveStep(index: int) returns (outcome: Outcome)
      modifies this
      ensures outcome == if index == old(genIdx) then HoldsGenerator
                         else if 0 - |old(steps)| <= index < |old(steps)| then Done else NoSuchStep
      ensures outcome != Done ==> State() == old(State())
      ensures outcome == Done ==>
                var at := Position(|old(steps)|, index);
                |steps| == |old(steps)| - 1 && old(steps) == steps[..at] + [old(steps)[at]] + steps[at..]
      ensures forall gen :: Points(old(State()), gen) && InRange(|old(steps)|, index) ==>
                (Points(State(), gen) <==> index >= 0 || Position(|old(steps)|, index) < old(genIdx))
      ensures State() == Removed(old(State()), index).0
    {
      hide Points;
      forall gen | Points(State(), gen) && InRange(|steps|, index)
        ensures Points(Removed(State(), index).0, gen) <==> index >= 0 || Position(|steps|, index) < genIdx
      {
        RemoveKeepsGenExactly(State(), gen, index);
      }
      if index == genIdx {
        return HoldsGenerator;
      }
      if !InRange(|steps|, index) {
        return NoSuchStep;
      }
      var at := Position(|steps|, index);
      steps := steps[..at] + steps[at + 1..];
      if index < genIdx {
        genIdx := genIdx - 1;
      }
      return Done;
    }

    /** Any run of edits; with plain indices the generator index stays right throughout. */
    method Edit(edits: seq<Edit>)
      modifies this
      ensures State() == EditedAll(old(State()), edits)
      ensures forall gen :: Points(old(State()), gen) && (forall e :: e in edits ==> Plain(e, gen)) ==>
              Points(State(), gen)
    {
      hide Points, Appended, Inserted, Removed, Plain;
      ghost var p := State();
      for n := 0 to |edits|
        invariant State() == EditedAll(p, edits[..n])
      {
        assert edits[..n + 1][..n] == edits[..n] && edits[..n + 1][n] == edits[n];
        var ignored;
        match edits[n] {
          case Append(step) => AppendStep(step);
          case Insert(step, index) => ignored := InsertStep(step, index);
          case Remove(index) => ignored := RemoveStep(index);
        }
      }
      assert edits[..|edits|] == edits;
      forall gen | Points(p, gen) && forall e :: e in edits ==> Plain(e, gen) ensures Points(State(), gen) {
        EditsKeepGen(p, gen, edits);
      }
    }
  }

  // ---------------------------------------------------------------------------------------
  // Appending sorts by affinity

  predicate Sorted(steps: seq<Step>) {
    forall i, j :: 0 <= i < j < |steps| ==> steps[i].affinity <= steps[j].affinity
  }

  /** The steps with affinity `a`, in order. */
  function Alike(steps: seq<Step>, a: real): seq<Step> {
    if steps == [] then []
    else if steps[0].affinity == a then [steps[0]] + Alike(steps[1..], a)
    else Alike(steps[1..], a)
  }

  /** `steps` is `added`, sorted by affinity, with steps of the same affinity in the order added. */
  ghost predicate StablySorted(steps: seq<Step>, added: seq<Step>) {
    Sorted(steps) && forall a :: Alike(steps, a) == Alike(added, a)
  }

  lemma {:induction false} AlikeConcat(s: seq<Step>, t: seq<Step>, a: real)
    ensures Alike(s + t, a) == Alike(s, a) + Alike(t, a)
  {
    if s == [] {
      assert s + t == t;
    } else {
      assert (s + t)[1..] == s[1..] + t;
      AlikeConcat(s[1..], t, a);
    }
  }

  lemma {:induction false} NoneAlike(s: seq<Step>, a: real)
    requires forall i :: 0 <= i < |s| ==> s[i].affinity != a
    ensures Alike(s, a) == []
  {
    if s != [] {
      NoneAlike(s[1..], a);
    }
  }

  function Placed(steps: seq<Step>, step: Step): (r: seq<Step>)
    ensures |r| == |steps| + 1
  {
    steps[..Behind(steps, step.affinity)] + [step] + steps[Behind(steps, step.affinity)..]
  }

  lemma PlacedSorted(steps: seq<Step>, step: Step)
    requires Sorted(steps)
    ensures Sorted(Placed(steps, step))
  {
  }

  lemma PlacedAlike(steps: seq<Step>, step: Step, a: real)
    ensures Alike(Placed(steps, step), a) == Alike(steps, a) + if step.affinity == a then [step] else []
  {
    hide Alike;
    var at := Behind(steps, step.affinity);
    var front, back := steps[..at], steps[at..];
    assert steps == front + back;
    AlikeConcat(front, back, a);
    AlikeConcat(front + [step], back, a);
    AlikeConcat(front, [step], a);
    OneAlike(step, a);
    if a == step.affinity {
      NoneAlike(back, a);
    }
  }

  lemma OneAlike(step: Step, a: real)
    ensures Alike([step], a) == if step.affinity == a then [step] else []
  {
    assert [step][1..] == [];
  }

  /** Putting a step behind the last one that it does not have to precede keeps a list stably sorted. */
  lemma PlacedSorts(steps: seq<Step>, added: seq<Step>, step: Step)
    requires StablySorted(steps, added)
    ensures StablySorted(Placed(steps, step), added + [step])
  {
    hide Alike, Placed, Sorted;
    PlacedSorted(steps, step);
    forall a ensures Alike(Placed(steps, step), a) == Alike(added + [step], a) {
      PlacedAlike(steps, step, a);
      AlikeConcat(added, [step], a);
      OneAlike(step, a);
    }
  }

  /** Appending to a pipe with parent places a step among all steps; otherwise among those behind the
      head. */
  lemma AppendedPlaces(p: Steps, step: Step)
    requires p.steps != []
    ensures Appended(p, step).hasParent == p.hasParent
    ensures p.hasParent ==> Appended(p, step).steps == Placed(p.steps, step)
    ensures !p.hasParent ==> Appended(p, step).steps == [p.steps[0]] + Placed(p.steps[1..], step)
  {
    hide Behind, InsertedAt;
    InsertedIs(p, step, Behind(p.steps, step.affinity));
    if !p.hasParent {
      var b := Behind(p.steps[1..], step.affinity);
      BehindHead(p.steps, step.affinity);
      assert p.steps[..b + 1] == [p.steps[0]] + p.steps[1..][..b] && p.steps[b + 1..] == p.steps[1..][b..];
    }
  }

  lemma InsertedIs(p: Steps, step: Step, at: nat)
    requires at <= |p.steps| && p.steps != []
    ensures InsertedAt(p, step, at).hasParent == p.hasParent
    ensures
      var i := if at == 0 && !p.hasParent then 1 else at;
      InsertedAt(p, step, at).steps == p.steps[..i] + [step] + p.steps[i..]
  {
  }

  lemma BehindHead(steps: seq<Step>, a: real)
    requires steps != []
    ensures Behind(steps, a) == if Behind(steps[1..], a) > 0
            || steps[0].affinity <= a then 1 + Behind(steps[1..], a) else 0
  {
    var tail := steps[1..];
    var at, b := Behind(steps, a), Behind(tail, a);
    assert forall i :: 0 <= i < |tail| ==> tail[i] == steps[i + 1];
    assert b > 0 ==> tail[b - 1].affinity <= a;
    assert at > 1 ==> tail[at - 2].affinity <= a;
  }

  function Appends(steps: seq<Step>): seq<Edit> {
    if steps == [] then [] else Appends(steps[..|steps| - 1]) + [Append(steps[|steps| - 1])]
  }

  /** All steps are stably sorted by affinity; in a pipe without parent the head, its generator, stays
      at the head. */
  ghost predicate InOrder(p: Steps, added: seq<Step>) {
    && p.steps != [] && added != []
    && if p.hasParent then StablySorted(p.steps, added)
       else p.steps[0] == added[0] && StablySorted(p.steps[1..], added[1..])
  }

  lemma AppendKeepsOrder(p: Steps, added: seq<Step>, step: Step)
    requires InOrder(p, added)
    ensures InOrder(Appended(p, step), added + [step])
  {
    hide Appended, StablySorted, Placed;
    AppendedPlaces(p, step);
    if p.hasParent {
      PlacedSorts(p.steps, added, step);
    } else {
      PlacedSorts(p.steps[1..], added[1..], step);
      assert (added + [step])[1..] == added[1..] + [step];
      assert ([p.steps[0]] + Placed(p.steps[1..], step))[1..] == Placed(p.steps[1..], step);
    }
  }

  /** Appending steps one by one sorts them stably by affinity. */
  lemma {:induction false} AppendingSorts(hasParent: bool, added: seq<Step>)
    requires added != []
    ensures EditedAll(Steps(hasParent, [], 0), Appends(added)).hasParent == hasParent
    ensures InOrder(EditedAll(Steps(hasParent, [], 0), Appends(added)), added)
  {
    var front, last := added[..|added| - 1], added[|added| - 1];
    var start := Steps(hasParent, [], 0);
    hide Appended, InOrder;
    AppendsLength(front);
    assert Appends(added)[..|added| - 1] == Appends(front);
    AppendsLength(added);
    var before := EditedAll(start, Appends(front));
    assert EditedAll(start, Appends(added)) == Appended(before, last);
    assert added == front + [last];
    if front == [] {
      FirstAppended(hasParent, last);
    } else {
      AppendingSorts(hasParent, front);
      AppendKeepsOrder(before, front, last);
      ParentKept(before, last);
    }
  }

  lemma ParentKept(p: Steps, step: Step)
    ensures Appended(p, step).hasParent == p.hasParent
  {
  }

  lemma FirstAppended(hasParent: bool, step: Step)
    ensures Appended(Steps(hasParent, [], 0), step) == Steps(hasParent, [step], 0)
    ensures InOrder(Steps(hasParent, [step], 0), [step])
  {
  }

  lemma {:induction false} AppendsLength(steps: seq<Step>)
    ensures |Appends(steps)| == |steps|
  {
    if steps != [] {
      AppendsLength(steps[..|steps| - 1]);
    }
  }

  // ---------------------------------------------------------------------------------------
  // The generator keeps its index

  /** The generator is `gen`, there once, and the index of a pipe says where. */
  predicate Points(p: Steps, gen: Step) {
    0 <= p.genIdx < |p.steps| && forall i :: 0 <= i < |p.steps| ==> (p.steps[i] == gen <==> i == p.genIdx)
  }

  /** Inserting keeps the index right exactly when the index given is not negative or stands for a
      place at or before the generator. */
  lemma InsertKeepsGenExactly(p: Steps, gen: Step, step: Step, index: int)
    requires Points(p, gen) && step != gen
    ensures Points(InsertedAt(p, step, index), gen) <==> index >= 0 || InsertPos(|p.steps|, index) <= p.genIdx
  {
    var i := if index == 0 && !p.hasParent then 1 else index;
    var at := InsertPos(|p.steps|, i);
    var after := InsertedAt(p, step, index);
    assert forall k :: 0 <= k < at ==> after.steps[k] == p.steps[k];
    assert after.steps[at] == step;
    assert forall k :: at < k < |after.steps| ==> after.steps[k] == p.steps[k - 1];
    var now := if at <= p.genIdx then p.genIdx + 1 else p.genIdx;
    assert after.steps[now] == gen;
  }

  lemma InsertMeans(p: Steps, step: Step, index: int)
    ensures
      var after, at := Inserted(p, step, index).0, InsertPos(|p.steps|, index);
      && (p.steps != [] && index == 0 && !p.hasParent ==> after == p)
      && (p.steps == [] || index != 0 || p.hasParent ==>
            |after.steps| == |p.steps| + 1 && after.steps[at] == step
              && after.steps[..at] + after.steps[at + 1..] == p.steps)
    ensures forall gen :: Points(p, gen) && gen != step ==>
              (Points(Inserted(p, step, index).0, gen) <==> index >= 0 || InsertPos(|p.steps|, index) <= p.genIdx)
  {
    var after, at := Inserted(p, step, index).0, InsertPos(|p.steps|, index);
    assert p.steps == p.steps[..at] + p.steps[at..];
    forall gen | Points(p, gen) && gen != step
      ensures Points(after, gen) <==> index >= 0 || at <= p.genIdx
    {
      InsertKeepsGenExactly(p, gen, step, index);
    }
  }

  /** Removing keeps the index right exactly when the index given is not negative or stands for a step
      before the generator; with other negative indices even the generator can be removed. */
  lemma RemoveKeepsGenExactly(p: Steps, gen: Step, index: int)
    requires Points(p, gen) && InRange(|p.steps|, index)
    ensures Points(Removed(p, index).0, gen) <==> index >= 0 || Position(|p.steps|, index) < p.genIdx
  {
    var at := Position(|p.steps|, index);
    var after := Removed(p, index).0;
    if index != p.genIdx {
      assert forall k :: 0 <= k < at ==> after.steps[k] == p.steps[k];
      assert forall k :: at <= k < |after.steps| ==> after.steps[k] == p.steps[k + 1];
      if at != p.genIdx {
        var now := if at < p.genIdx then p.genIdx - 1 else p.genIdx;
        assert after.steps[now] == gen;
      } else {
        assert forall k :: 0 <= k < |after.steps| ==> after.steps[k] != gen;
        assert 0 <= after.genIdx < |after.steps| ==> after.steps[after.genIdx] != gen;
      }
    }
  }

  predicate Plain(edit: Edit, gen: Step) {
    match edit
    case Append(step) => step != gen
    case Insert(step, index) => step != gen && index >= 0
    case Remove(index) => index >= 0
  }

  /** Through any run of edits with plain indices the generator stays, and the index points at it. */
  lemma {:induction false} EditsKeepGen(p: Steps, gen: Step, edits: seq<Edit>)
    requires Points(p, gen) && forall e :: e in edits ==> Plain(e, gen)
    ensures Points(EditedAll(p, edits), gen)
    decreases edits
  {
    if edits != [] {
      var before, edit := EditedAll(p, edits[..|edits| - 1]), edits[|edits| - 1];
      EditsKeepGen(p, gen, edits[..|edits| - 1]);
      assert Plain(edit, gen);
      match edit
      case Append(step) => InsertKeepsGenExactly(before, gen, step, Behind(before.steps, step.affinity));
      case Insert(step, index) => InsertKeepsGenExactly(before, gen, step, index);
      case Remove(index) =>
        if InRange(|before.steps|, index) {
          RemoveKeepsGenExactly(before, gen, index);
        }
    }
  }

  /** A clone gets the steps but not the index of the generator. */
  function Cloned(p: Steps): Steps {
    p.(genIdx := 0)
  }

  /** Cloning keeps the index right exactly when the generator is at the head. */
  lemma CloneKeepsGenExactly(p: Steps, gen: Step)
    requires Points(p, gen)
    ensures Points(Cloned(p), gen) <==> p.steps[0] == gen
  {
    assert p.steps[p.genIdx] == gen;
  }

  /** With index -1 a pipe of two steps loses its generator to what was behind it. */
  lemma NegativeIndexMisplacesGen(gen: Step, step: Step, extra: Step)
    requires gen != step && gen != extra
    ensures
      var p := Steps(true, [gen, step], 0);
      Points(p, gen) && !Points(InsertedAt(p, extra, -1), gen) && !Points(Removed(p, -1).0, gen)
        && gen !in Removed(p, -2).0.steps
  {
    var p := Steps(true, [gen, step], 0);
    InsertKeepsGenExactly(p, gen, extra, -1);
    RemoveKeepsGenExactly(p, gen, -1);
    assert Removed(p, -2).0.steps == [step];
  }
}
