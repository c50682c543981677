/**
  Delivering the items of a file to a destination in batches, such that a crashed job can be resumed.
*/
module BatchDelivery {
  import opened Options
  import opened Sequences

  // ---------------------------------------------------------------------------------------
  // Batches of a JSONL file

  /** The generator of batches: how many items are still to skip, the batch being filled, and what
      has been yielded. */
  datatype Gen<T> = Gen(skip: nat, current: seq<T>, out: seq<seq<T>>)

  function Take<T>(g: Gen<T>, item: T, size: nat): Gen<T> {
    if g.skip > 0 then g.(skip := g.skip - 1)
    else if |g.current| + 1 == size then Gen(0, [], g.out + [g.current + [item]])
    else g.(current := g.current + [item])
  }

  function TakeAll<T>(g: Gen<T>, items: seq<T>, size: nat): Gen<T> {
    if items == [] then g else Take(TakeAll(g, items[..|items| - 1], size), items[|items| - 1], size)
  }

  /** At the end of every line the current batch is yielded, and kept. */
  function TakeLine<T>(g: Gen<T>, line: seq<T>, size: nat): Gen<T> {
    var after := TakeAll(g, line, size);
    after.(out := after.out + [after.current])
  }

  function TakeLines<T>(g: Gen<T>, lines: seq<seq<T>>, size: nat): Gen<T> {
    if lines == [] then g else TakeLine(TakeLines(g, lines[..|lines| - 1], size), lines[|lines| - 1], size)
  }

  function JsonlBatches<T>(lines: seq<seq<T>>, start: nat, size: nat): seq<seq<T>> {
    TakeLines(Gen(start, [], []), lines, size).out
  }

  method GetJsonlBatches<T>(lines: seq<seq<T>>, startIndex: nat, batchSize: nat) returns (batches: seq<seq<T>>)
    ensures batches == JsonlBatches(lines, startIndex, batchSize)
  {
    var currentBatch: seq<T> := [];
    var skip := startIndex;
    batches := [];
    for n := 0 to |lines|
      invariant Gen(skip, currentBatch, batches) == TakeLines(Gen(startIndex, [], []), lines[..n], batchSize)
    {
      var line := lines[n];
      ghost var before := Gen(skip, currentBatch, batches);
      for i := 0 to |line|
        invariant Gen(skip, currentBatch, batches) == TakeAll(before, line[..i], batchSize)
      {
        assert line[..i + 1][..i] == line[..i];
        // what was delivered before is passed over
        if skip > 0 {
          skip := skip - 1;
          continue;
        }
        currentBatch := currentBatch + [line[i]];
        if |currentBatch| == batchSize {
          batches := batches + [currentBatch];
          currentBatch := [];
        }
      }
      assert line[..|line|] == line && lines[..n + 1][..n] == lines[..n];
      batches := batches + [currentBatch];
    }
    assert lines[..|lines|] == lines;
  }

  // ---------------------------------------------------------------------------------------
  // Which files are delivered exactly

  function Kept<T>(items: seq<T>, skip: nat): seq<T> {
    if skip <= |items| then items[skip..] else []
  }

  /** The items that wait in the current batch at the end of the line before. */
  function Waiting<T>(lines: seq<seq<T>>, start: nat, size: nat): nat
    requires size > 0
  {
    |Kept(Concat(lines), start)| % size
  }

  /** The items in the current batch at the ends of all lines but the last. */
  function Repeated<T>(lines: seq<seq<T>>, start: nat, size: nat): nat
    requires size > 0
  {
    if |lines| <= 1 then 0
    else Repeated(lines[..|lines| - 1], start, size) + Waiting(lines[..|lines| - 1], start, size)
  }

  lemma Multiple(size: nat, d: int)
    requires size > 0
    ensures d >= 1 ==> size * d >= size
    ensures d <= -1 ==> size * d <= 0 - size
  {
    if d >= 1 {
      assert size * d == size + size * (d - 1) && size * (d - 1) >= 0;
    } else if d <= -1 {
      assert size * d == 0 - size + size * (d + 1) && size * (d + 1) <= 0;
    }
  }

  lemma ModIs(x: nat, size: nat, q: nat, r: nat)
    requires 0 <= r < size && x == size * q + r
    ensures x % size == r
  {
    var d := x / size - q;
    assert x == size * (x / size) + x % size && x / size == q + d;
    assert size * (q + d) == size * q + size * d;
    Multiple(size, d);
  }

  lemma ModStep(a: nat, size: nat)
    requires size > 0
    ensures (a + 1) % size == if a % size + 1 == size then 0 else a % size + 1
  {
    var q, r := a / size, a % size;
    assert a == size * q + r;
    if r + 1 == size {
      assert a + 1 == size * (q + 1) + 0;
      ModIs(a + 1, size, q + 1, 0);
    } else {
      ModIs(a + 1, size, q, r + 1);
    }
  }

  /** What taking items does, whatever was yielded before. */
  lemma {:induction false} Taken<T>(g: Gen<T>, items: seq<T>, size: nat, waiting: nat)
    requires size > 0 && |g.current| == waiting % size
    ensures
      var g', kept := TakeAll(g, items, size), Kept(items, g.skip);
      && g'.skip == (if g.skip > |items| then g.skip - |items| else 0)
      && Concat(g'.out) + g'.current == Concat(g.out) + g.current + kept
      && |g'.current| == (waiting + |kept|) % size
    decreases items
  {
    if items == [] {
      assert Kept(items, g.skip) == [];
    } else {
      var front, last := items[..|items| - 1], items[|items| - 1];
      Taken(g, front, size, waiting);
      var before := TakeAll(g, front, size);
      if g.skip >= |items| {
        assert Kept(items, g.skip) == [] == Kept(front, g.skip);
      } else {
        assert Kept(items, g.skip) == Kept(front, g.skip) + [last];
        ModStep(waiting + |Kept(front, g.skip)|, size);
        TakenOne(before, last, size, Concat(g.out) + g.current + Kept(front, g.skip));
        assert Concat(g.out) + g.current + Kept(items, g.skip) == Concat(g.out) + g.current + Kept(front, g.skip)
          + [last];
      }
    }
  }

  lemma TakenOne<T>(g: Gen<T>, item: T, size: nat, so: seq<T>)
    requires g.skip == 0 && Concat(g.out) + g.current == so
    ensures Concat(Take(g, item, size).out) + Take(g, item, size).current == so + [item]
  {
    hide Concat;
    var full := g.current + [item];
    assert so + [item] == Concat(g.out) + full;
    if |full| == size {
      ConcatParts(g.out, [full]);
      ConcatOne(full);
      assert Concat(g.out + [full]) + [] == Concat(g.out + [full]);
    }
  }

  /** After some lines, what waits in the current batch; and how much was yielded: every item once, and
      those that waited at the ends of earlier lines again. */
  lemma {:induction false} TakenLines<T>(lines: seq<seq<T>>, start: nat, size: nat)
    requires size > 0 && lines != []
    ensures
      var g, items := TakeLines(Gen(start, [], []), lines, size), Concat(lines);
      && g.skip == (if start > |items| then start - |items| else 0)
      && |g.current| == Waiting(lines, start, size)
      && |Concat(g.out)| == |Kept(items, start)| + Repeated(lines, start, size)
    decreases lines
  {
    hide TakeAll, Waiting, Concat;
    var front, last := lines[..|lines| - 1], lines[|lines| - 1];
    ConcatLast(lines);
    ConcatOne<T>([]);
    var before := TakeLines(Gen(start, [], []), front, size);
    if front != [] {
      TakenLines(front, start, size);
    } else {
      assert before == Gen(start, [], []) && Concat(front) == [];
      NoneWaiting<T>(start, size);
    }
    WaitingIs(front, start, size);
    WaitingIs(lines, start, size);
    var waiting := |Kept(Concat(front), start)|;
    Taken(before, last, size, waiting);
    var after := TakeAll(before, last, size);
    assert |Kept(Concat(lines), start)| == waiting + |Kept(last, before.skip)|;
    ConcatParts(after.out, [after.current]);
    ConcatOne(after.current);
  }

  /** Every line but the last ends where a batch ends, as counted from the start position. */
  predicate Aligned<T>(lines: seq<seq<T>>, start: nat, size: nat)
    requires size > 0
  {
    forall n :: 0 < n < |lines| ==> Waiting(lines[..n], start, size) == 0
  }

  lemma {:induction false} RepeatedNone<T>(lines: seq<seq<T>>, start: nat, size: nat)
    requires size > 0
    ensures Repeated(lines, start, size) == 0 <==> Aligned(lines, start, size)
  {
    hide Waiting;
    if |lines| > 1 {
      var front := lines[..|lines| - 1];
      RepeatedNone(front, start, size);
      assert forall n :: 0 < n <= |front| ==> front[..n] == lines[..n];
    }
  }

  lemma {:induction false} AlignedInOrder<T>(lines: seq<seq<T>>, start: nat, size: nat)
    requires size > 0 && lines != [] && Aligned(lines, start, size)
    ensures Concat(JsonlBatches(lines, start, size)) == Kept(Concat(lines), start)
    decreases lines
  {
    hide TakeAll, Repeated, Aligned, Waiting, Concat;
    var front, last := lines[..|lines| - 1], lines[|lines| - 1];
    ConcatLast(lines);
    ConcatOne<T>([]);
    var before := TakeLines(Gen(start, [], []), front, size);
    var items := Concat(front);
    if front != [] {
      AlignedFront(lines, start, size);
      AlignedInOrder(front, start, size);
      TakenLines(front, start, size);
    } else {
      assert before == Gen(start, [], []) && Waiting(front, start, size) == 0 by { NoneWaiting<T>(start, size); }
    }
    assert |before.current| == |Kept(items, start)| % size == 0 by { WaitingIs(front, start, size); }
    Taken(before, last, size, |Kept(items, start)|);
    var after := TakeAll(before, last, size);
    ConcatParts(after.out, [after.current]);
    ConcatOne(after.current);
    KeptBoth(items, last, start);
    assert Concat(before.out) + [] == Concat(before.out);
  }

  lemma WaitingIs<T>(lines: seq<seq<T>>, start: nat, size: nat)
    requires size > 0
    ensures Waiting(lines, start, size) == |Kept(Concat(lines), start)| % size
  {
  }

  lemma NoneWaiting<T>(start: nat, size: nat)
    requires size > 0
    ensures Waiting<T>([], start, size) == 0
  {
    assert Concat<T>([]) == [];
  }

  lemma AlignedFront<T>(lines: seq<seq<T>>, start: nat, size: nat)
    requires size > 0 && |lines| > 1 && Aligned(lines, start, size)
    ensures Aligned(lines[..|lines| - 1], start, size) && Waiting(lines[..|lines| - 1], start, size) == 0
  {
    hide Waiting;
    var front := lines[..|lines| - 1];
    assert forall n :: 0 < n < |front| ==> front[..n] == lines[..n];
  }

  lemma KeptBoth<T>(a: seq<T>, b: seq<T>, start: nat)
    ensures Kept(a + b, start) == Kept(a, start) + Kept(b, if start > |a| then start - |a| else 0)
  {
  }

  /** The batches are the items from the start position on, in order, exactly when every line but the
      last ends where a batch ends; otherwise items are yielded again. */
  lemma DeliveredExactly<T>(lines: seq<seq<T>>, start: nat, size: nat)
    requires size > 0 && lines != []
    ensures Concat(JsonlBatches(lines, start, size)) == Kept(Concat(lines), start) <==> Aligned(lines, start, size)
    ensures |Concat(JsonlBatches(lines, start, size))| == |Kept(Concat(lines), start)| + Repeated(lines, start, size)
  {
    TakenLines(lines, start, size);
    RepeatedNone(lines, start, size);
    if Aligned(lines, start, size) {
      AlignedInOrder(lines, start, size);
    }
  }

  /** Two lines of one item each, in batches of two: the first item is yielded twice. */
  lemma TwoLinesRepeat<T>(a: T, b: T)
    ensures JsonlBatches([[a], [b]], 0, 2) == [[a], [a, b], []]
  {
    var start: Gen<T> := Gen(0, [], []);
    assert [[a], [b]][..1] == [[a]] && [[a]][..0] == [] && [a][..0] == [] && [b][..0] == [];
    var first := TakeLines(start, [[a]], 2);
    assert TakeAll(start, [], 2) == start && TakeAll(start, [a], 2) == Take(start, a, 2) == Gen(0, [a], []);
    assert TakeLines(start, [], 2) == start && first == TakeLine(start, [a], 2);
    assert first == Gen(0, [a], [[a]]);
    assert [a] + [b] == [a, b] && [[a]] + [[a, b]] == [[a], [a, b]];
    assert TakeAll(first, [], 2) == first && TakeAll(first, [b], 2) == Take(first, b, 2) == Gen(0, [], [[a], [a, b]]);
    assert TakeLines(start, [[a], [b]], 2) == TakeLine(first, [b], 2);
  }

  // ---------------------------------------------------------------------------------------
  // The sizes of batches

  /** All batches but the last are full or empty, and the last is not overfull. */
  predicate Even<T>(batches: seq<seq<T>>, size: nat) {
    && batches != [] && |batches[|batches| - 1]| <= size
    && forall i :: 0 <= i < |batches| - 1 ==> |batches[i]| == size || batches[i] == []
  }

  predicate FullOrEmpty<T>(batches: seq<seq<T>>, size: nat) {
    forall i :: 0 <= i < |batches| ==> |batches[i]| == size || batches[i] == []
  }

  lemma {:induction false} TakenFull<T>(g: Gen<T>, items: seq<T>, size: nat)
    requires FullOrEmpty(g.out, size)
    ensures FullOrEmpty(TakeAll(g, items, size).out, size)
  {
    if items != [] {
      TakenFull(g, items[..|items| - 1], size);
    }
  }

  lemma {:induction false} AlignedEven<T>(lines: seq<seq<T>>, start: nat, size: nat)
    requires size > 0 && lines != [] && Aligned(lines, start, size)
    ensures Even(JsonlBatches(lines, start, size), size)
    ensures Waiting(lines, start, size) == 0 ==> FullOrEmpty(JsonlBatches(lines, start, size), size)
    decreases lines
  {
    hide TakeAll, Repeated, Aligned, Waiting;
    var front, last := lines[..|lines| - 1], lines[|lines| - 1];
    var before := TakeLines(Gen(start, [], []), front, size);
    if front != [] {
      AlignedFront(lines, start, size);
      AlignedEven(front, start, size);
    } else {
      assert before == Gen(start, [], []);
    }
    TakenFull(before, last, size);
    TakenLines(lines, start, size);
    WaitingIs(lines, start, size);
  }

  /** Where a file can be read from the start it can be read from every position that batches end on. */
  lemma AlignedLater<T>(lines: seq<seq<T>>, start: nat, size: nat)
    requires size > 0 && Aligned(lines, 0, size) && start <= |Concat(lines)|
    requires start % size == 0 || start == |Concat(lines)|
    ensures Aligned(lines, start, size)
  {
    forall n | 0 < n < |lines| ensures Waiting(lines[..n], start, size) == 0 {
      assert Waiting(lines[..n], 0, size) == 0;
      var ahead := |Concat(lines[..n])|;
      ConcatParts(lines[..n], lines[n..]);
      assert lines[..n] + lines[n..] == lines;
      if start < ahead {
        Difference(ahead, start, size);
      } else {
        ModIs(0, size, 0, 0);
      }
    }
  }

  lemma Difference(a: nat, b: nat, size: nat)
    requires size > 0 && b <= a && a % size == 0 && b % size == 0
    ensures (a - b) % size == 0
  {
    var p, q := a / size, b / size;
    assert a == size * p && b == size * q;
    assert a - b == size * (p - q);
    if p < q {
      Multiple(size, p - q);
    }
    ModIs(a - b, size, p - q, 0);
  }

  lemma OneMore(a: nat, size: nat)
    requires size > 0 && a % size == 0
    ensures (a + size) % size == 0
  {
    var p := a / size;
    assert a == size * p && a + size == size * (p + 1);
    ModIs(a + size, size, p + 1, 0);
  }

  // ---------------------------------------------------------------------------------------
  // Where the items of a batch come from, in any file

  /** Where the next batch starts, behind the full ones: a batch that is not full is yielded again. */
  function Base<T>(batches: seq<seq<T>>, size: nat): nat {
    if batches == [] then 0
    else Base(batches[..|batches| - 1], size) + if |batches[|batches| - 1]| == size then size else 0
  }

  /** How far the batches reach. */
  function Reached<T>(batches: seq<seq<T>>, size: nat): nat {
    if batches == [] then 0 else Base(batches[..|batches| - 1], size) + |batches[|batches| - 1]|
  }

  /** Every batch is a piece of `all` that starts where the full batches before it end; one that is not
      full does not shrink before it is yielded again. */
  ghost predicate Sliced<T>(batches: seq<seq<T>>, size: nat, all: seq<T>) {
    forall j :: 0 <= j < |batches| ==> SliceAt(batches, size, all, j)
  }

  ghost predicate SliceAt<T>(batches: seq<seq<T>>, size: nat, all: seq<T>, j: nat)
    requires j < |batches|
  {
    var from, n := Base(batches[..j], size), |batches[j]|;
    from + n <= |all| && n <= size && batches[j] == all[from..from + n] && Reached(batches[..j], size) <= from + n
  }

  /** What waits is what was read behind the full batches. */
  ghost predicate Filling<T>(g: Gen<T>, size: nat, all: seq<T>) {
    && Sliced(g.out, size, all) && Base(g.out, size) <= |all|
    && g.current == all[Base(g.out, size)..] && |g.current| < size
    && Reached(g.out, size) <= |all|
  }

  lemma SlicedMore<T>(batches: seq<seq<T>>, size: nat, all: seq<T>, more: seq<T>)
    requires Sliced(batches, size, all)
    ensures Sliced(batches, size, all + more)
  {
    hide Base, Reached;
    forall j | 0 <= j < |batches| ensures SliceAt(batches, size, all + more, j) {
      assert SliceAt(batches, size, all, j);
      var from, to := Base(batches[..j], size), Base(batches[..j], size) + |batches[j]|;
      assert (all + more)[from..to] == all[from..to];
    }
  }

  lemma SlicedOneMore<T>(batches: seq<seq<T>>, size: nat, all: seq<T>, batch: seq<T>)
    requires Sliced(batches, size, all) && Base(batches, size) + |batch| <= |all| && |batch| <= size
    requires batch == all[Base(batches, size)..Base(batches, size) + |batch|]
    requires Reached(batches, size) <= Base(batches, size) + |batch|
    ensures Sliced(batches + [batch], size, all)
    ensures Base(batches + [batch], size) == Base(batches, size) + if |batch| == size then size else 0
    ensures Reached(batches + [batch], size) == Base(batches, size) + |batch|
  {
    hide Base, Reached;
    var longer := batches + [batch];
    OneBatchMore(batches, size, batch);
    forall j | 0 <= j < |longer| ensures SliceAt(longer, size, all, j) {
      if j < |batches| {
        assert longer[..j] == batches[..j] && longer[j] == batches[j] && SliceAt(batches, size, all, j);
      } else {
        assert longer[..j] == batches && longer[j] == batch;
      }
    }
  }

  lemma OneBatchMore<T>(batches: seq<seq<T>>, size: nat, batch: seq<T>)
    ensures Base(batches + [batch], size) == Base(batches, size) + if |batch| == size then size else 0
    ensures Reached(batches + [batch], size) == Base(batches, size) + |batch|
  {
    var longer := batches + [batch];
    assert longer[..|longer| - 1] == batches && longer[|longer| - 1] == batch;
  }

  lemma {:induction false} TakenSlices<T>(g: Gen<T>, items: seq<T>, size: nat, all: seq<T>)
    requires size > 0 && Filling(g, size, all)
    ensures Filling(TakeAll(g, items, size), size, all + Kept(items, g.skip))
    ensures TakeAll(g, items, size).skip == if g.skip > |items| then g.skip - |items| else 0
    decreases items
  {
    if items == [] {
      assert all + Kept(items, g.skip) == all;
    } else {
      var front, last := items[..|items| - 1], items[|items| - 1];
      TakenSlices(g, front, size, all);
      var before := TakeAll(g, front, size);
      var read := all + Kept(front, g.skip);
      if g.skip >= |items| {
        assert Kept(items, g.skip) == [] == Kept(front, g.skip);
      } else {
        assert all + Kept(items, g.skip) == read + [last];
        FillOne(before, last, size, read);
      }
    }
  }

  lemma FillOne<T>(g: Gen<T>, item: T, size: nat, all: seq<T>)
    requires g.skip == 0 && Filling(g, size, all)
    ensures Filling(Take(g, item, size), size, all + [item])
  {
    hide Base, Reached, Sliced;
    var full, longer := g.current + [item], all + [item];
    SlicedMore(g.out, size, all, [item]);
    assert full == longer[Base(g.out, size)..];
    if |full| == size {
      assert full == longer[Base(g.out, size)..Base(g.out, size) + |full|];
      SlicedOneMore(g.out, size, longer, full);
    }
  }

  /** At the end of a line what waits is yielded as well. */
  lemma LineSlices<T>(g: Gen<T>, size: nat, all: seq<T>)
    requires Filling(g, size, all)
    ensures Filling(g.(out := g.out + [g.current]), size, all)
    ensures Reached(g.out + [g.current], size) == |all|
  {
    hide Base, Reached, Sliced;
    assert g.current == all[Base(g.out, size)..Base(g.out, size) + |g.current|];
    SlicedOneMore(g.out, size, all, g.current);
  }

  lemma {:induction false} LinesSliced<T>(lines: seq<seq<T>>, start: nat, size: nat)
    requires size > 0
    ensures
      var g, all := TakeLines(Gen(start, [], []), lines, size), Kept(Concat(lines), start);
      && Filling(g, size, all) && Reached(g.out, size) == |all|
      && g.skip == if start > |Concat(lines)| then start - |Concat(lines)| else 0
    decreases lines
  {
    hide TakeAll, Concat, Sliced, Base, Reached, Filling;
    if lines == [] {
      NothingSliced<T>(start, size);
    } else {
      var front, last := lines[..|lines| - 1], lines[|lines| - 1];
      ConcatLast(lines);
      LinesSliced(front, start, size);
      var before := TakeLines(Gen(start, [], []), front, size);
      TakenSlices(before, last, size, Kept(Concat(front), start));
      KeptBoth(Concat(front), last, start);
      LineSlices(TakeAll(before, last, size), size, Kept(Concat(lines), start));
    }
  }

  lemma NothingSliced<T>(start: nat, size: nat)
    requires size > 0
    ensures Filling<T>(Gen(start, [], []), size, []) && Reached<T>([], size) == 0
    ensures Concat<T>([]) == [] && Kept<T>([], start) == []
  {
    hide Concat;
    ConcatOne<T>([]);
    assert Base<T>([], size) == 0;
    hide Base;
  }

  /** In any file, every batch is a piece of the items from the start position on, and together they are
      all of them. */
  lemma BatchesAreSlices<T>(lines: seq<seq<T>>, start: nat, size: nat)
    requires size > 0
    ensures
      var batches, all := JsonlBatches(lines, start, size), Kept(Concat(lines), start);
      Sliced(batches, size, all) && Reached(batches, size) == |all|
  {
    hide TakeLines, Sliced, Base, Reached;
    LinesSliced(lines, start, size);
  }

  // ---------------------------------------------------------------------------------------
  // What a restart loses

  function Span(from: nat, to: nat): (r: set<nat>)
    ensures forall x: nat :: x in r <==> from <= x < to
  {
    if from >= to then {} else Span(from, to - 1) + {to - 1}
  }

  /** How many batches of a run are delivered, and how many of them are committed. */
  function Cut(crash: Crash, n: nat): (r: (nat, nat))
    ensures r.1 <= r.0 <= n && r.0 <= r.1 + 1
  {
    match crash
    case Never => (n, n)
    case BeforeBatch(i) => if i < n then (i, i) else (n, n)
    case AfterBatch(i) => if i < n then (i + 1, i) else (n, n)
  }

  /** The index committed, how far items were delivered, and whether some never will be. */
  datatype Progress = Progress(index: nat, reach: nat, lost: bool)

  /** One run: it delivers from the committed index on, so it leaves a gap for ever if that is beyond
      what was delivered and not all was. */
  function Resumed<T>(lines: seq<seq<T>>, size: nat, p: Progress, crash: Crash): Progress {
    var batches := JsonlBatches(lines, p.index, size);
    var (delivered, committed) := Cut(crash, |batches|);
    var far := Reached(batches[..delivered], size);
    Progress(p.index + |Concat(batches[..committed])|,
             if far > 0 && p.index + far > p.reach then p.index + far else p.reach,
             p.lost || (p.reach < p.index && p.reach < |Concat(lines)|))
  }

  function ResumedAll<T>(lines: seq<seq<T>>, size: nat, crashes: seq<Crash>): Progress
    decreases crashes
  {
    if crashes == [] then Progress(0, 0, false)
    else Resumed(lines, size, ResumedAll(lines, size, crashes[..|crashes| - 1]), crashes[|crashes| - 1])
  }

  /** The positions of the items that were delivered. */
  function Delivered<T>(log: seq<Delivery<T>>): set<nat> {
    if log == [] then {}
    else
      var last := log[|log| - 1];
      Delivered(log[..|log| - 1]) + Span(last.pos, last.pos + |last.items|)
  }

  /** All of the first `n` positions that are below the index were delivered. */
  predicate AllBelow(delivered: set<nat>, index: nat, n: nat) {
    forall x: nat :: x < index && x < n ==> x in delivered
  }

  /** Every delivery holds the items at its position. */
  ghost predicate Placed<T>(items: seq<T>, log: seq<Delivery<T>>) {
    forall d :: d in log ==> d.pos + |d.items| <= |items| && d.items == items[d.pos..d.pos + |d.items|]
  }

  /** Unless items were lost, exactly those up to `reach` were delivered; of lost items one below the
      committed index was not. */
  ghost predicate Tracks<T>(items: seq<T>, p: Progress, delivered: set<nat>) {
    && p.reach <= |items|
    && (!p.lost ==> delivered == Span(0, p.reach))
    && (p.lost ==> exists x: nat :: x < p.index && x < |items| && x !in delivered)
  }

  lemma SlicePlaced<T>(items: seq<T>, start: nat, batches: seq<seq<T>>, size: nat, i: nat)
    requires Sliced(batches, size, Kept(items, start)) && i < |batches| && batches[i] != []
    ensures
      var pos := start + Base(batches[..i], size);
      pos + |batches[i]| <= |items| && batches[i] == items[pos..pos + |batches[i]|]
  {
    hide Base, Reached;
    assert SliceAt(batches, size, Kept(items, start), i);
    var from, to := Base(batches[..i], size), Base(batches[..i], size) + |batches[i]|;
    assert batches[i] == Kept(items, start)[from..to] && to <= |Kept(items, start)|;
    assert Kept(items, start)[from..to] == items[start + from..start + to];
  }

  lemma ReachedMore<T>(items: seq<T>, batches: seq<seq<T>>, size: nat, i: nat)
    requires Sliced(batches, size, items) && i < |batches|
    ensures Reached(batches[..i + 1], size) == Base(batches[..i], size) + |batches[i]|
    ensures Base(batches[..i], size) <= Reached(batches[..i], size) <= Reached(batches[..i + 1], size)
  {
    assert SliceAt(batches, size, items, i);
    assert batches[..i + 1][..i] == batches[..i];
  }

  /** A run that delivered the items from `p.index` up to how far its batches reach keeps track. */
  lemma ResumedTracks<T>(lines: seq<seq<T>>, size: nat, p: Progress, crash: Crash, before: set<nat>, after: set<nat>)
    requires size > 0 && Tracks(Concat(lines), p, before)
    requires
      var batches := JsonlBatches(lines, p.index, size);
      after == before + Span(p.index, p.index + Reached(batches[..Cut(crash, |batches|).0], size))
    ensures Tracks(Concat(lines), Resumed(lines, size, p, crash), after)
  {
    hide Base, Reached, Sliced, JsonlBatches, Concat;
    var items, batches, q := Concat(lines), JsonlBatches(lines, p.index, size), Resumed(lines, size, p, crash);
    var n := Cut(crash, |batches|).0;
    BatchesAreSlices(lines, p.index, size);
    ReachedAtMost(Kept(items, p.index), batches, size, n);
    var far := Reached(batches[..n], size);
    assert far > 0 ==> p.index + far <= |items|;
    if p.lost {
      var x: nat :| x < p.index && x < |items| && x !in before;
      assert x !in after;
    } else if q.lost {
      assert p.reach !in after;
    }
  }

  lemma ReachedAtMost<T>(all: seq<T>, batches: seq<seq<T>>, size: nat, n: nat)
    requires Sliced(batches, size, all) && n <= |batches|
    ensures Reached(batches[..n], size) <= |all|
  {
    if n > 0 {
      assert SliceAt(batches, size, all, n - 1);
      ReachedMore(all, batches, size, n - 1);
    }
  }

  /** How much further the committed index is than the items delivered: by what was yielded before it was
      full, other than last. */
  function Surplus<T>(batches: seq<seq<T>>, size: nat): nat {
    if |batches| <= 1 then 0
    else
      var front := batches[..|batches| - 1];
      Surplus(front, size) + if |front[|front| - 1]| == size then 0 else |front[|front| - 1]|
  }

  lemma {:induction false} IndexAhead<T>(batches: seq<seq<T>>, size: nat)
    ensures |Concat(batches)| == Reached(batches, size) + Surplus(batches, size)
    decreases batches
  {
    hide Concat;
    if batches == [] {
      ConcatOne<T>([]);
    } else {
      var front := batches[..|batches| - 1];
      IndexAhead(front, size);
      ConcatLast(batches);
    }
  }

  /** When a job that crashed behind its first `n` committed batches is started again, it loses items if
      and only if some batch but the last of them was yielded before it was full and items are left. */
  lemma RestartLosesExactly<T>(lines: seq<seq<T>>, size: nat, n: nat)
    requires size > 0 && n < |JsonlBatches(lines, 0, size)|
    ensures
      var first := JsonlBatches(lines, 0, size)[..n];
      ResumedAll(lines, size, [BeforeBatch(n), Never]).lost
      <==> Surplus(first, size) > 0 && Reached(first, size) < |Concat(lines)|
  {
    hide Concat, JsonlBatches, Reached, Surplus, Base;
    var crashes: seq<Crash> := [BeforeBatch(n), Never];
    assert crashes[..1] == [BeforeBatch(n)] && [BeforeBatch(n)][..0] == [];
    assert ResumedAll(lines, size, [BeforeBatch(n)])
        == Resumed(lines, size, ResumedAll(lines, size, []), BeforeBatch(n));
    IndexAhead(JsonlBatches(lines, 0, size)[..n], size);
  }

  lemma {:induction false} OutGrows<T>(g: Gen<T>, items: seq<T>, size: nat)
    ensures g.out <= TakeAll(g, items, size).out
  {
    if items != [] {
      OutGrows(g, items[..|items| - 1], size);
    }
  }

  /** Three lines in batches of two: a job that crashed behind its second batch never delivers the third
      item. */
  lemma RestartLosesOne<T>(a: T, b: T, c: T, d: T, e: T)
    ensures
      var lines := [[a], [b], [c, d, e]];
      && [[a], [a, b]] <= JsonlBatches(lines, 0, 2)
      && ResumedAll(lines, 2, [BeforeBatch(2), Never]).lost
  {
    var lines, start: Gen<T> := [[a], [b], [c, d, e]], Gen(0, [], []);
    assert lines[..2] == [[a], [b]];
    TwoLinesRepeat(a, b);
    var two := TakeLines(start, [[a], [b]], 2);
    OutGrows(two, [c, d, e], 2);
    assert TakeLines(start, lines, 2) == TakeLine(two, [c, d, e], 2);
    var batches := JsonlBatches(lines, 0, 2);
    var first: seq<seq<T>> := [[a], [a, b]];
    assert batches[..2] == first && first[..1] == [[a]] && [[a]][..0] == [];
    assert Base([[a]], 2) == 0 && Reached(first, 2) == 2 && Surplus([[a]], 2) == 0 && Surplus(first, 2) == 1;
    ConcatLast(lines);
    hide JsonlBatches, ResumedAll, Concat, Surplus, Reached;
    RestartLosesExactly(lines, 2, 2);
  }

  // ---------------------------------------------------------------------------------------
  // Crashes and restarts

  /** Items delivered when the index `at` was committed; `pos` is their position in the file. */
  datatype Delivery<T> = Delivery(at: nat, pos: nat, items: seq<T>)

  /** What was delivered, without what was delivered again at the same position. */
  function WithoutRepeats<T>(log: seq<Delivery<T>>): seq<seq<T>> {
    if log == [] then []
    else
      var front, last := log[..|log| - 1], log[|log| - 1];
      WithoutRepeats(front) + if front != [] && front[|front| - 1].at == last.at then [] else [last.items]
  }

  /** The last batch was delivered, but this was not committed. */
  predicate Pending<T>(log: seq<Delivery<T>>, committed: nat) {
    log != [] && log[|log| - 1].at == committed
  }

  /** How often a batch was delivered again, or will have to be. */
  function Repeats<T>(log: seq<Delivery<T>>, committed: nat): int {
    |log| - |WithoutRepeats(log)| + if Pending(log, committed) then 1 else 0
  }

  /** The committed index is on a batch or at the end, and without repeats the items below it were
      delivered in order, and at most the next batch as well. */
  ghost predicate Consistent<T>(items: seq<T>, size: nat, committed: nat, log: seq<Delivery<T>>)
    requires size > 0
  {
    && committed <= |items| && (committed % size == 0 || committed == |items|)
    && if Pending(log, committed) then
         var last := log[|log| - 1].items;
         && last != [] && |last| == (if |items| - committed < size then |items| - committed else size)
         && Concat(WithoutRepeats(log)) == items[..committed] + last == items[..committed + |last|]
       else Concat(WithoutRepeats(log)) == items[..committed]
  }

  lemma DeliveredOnce<T>(items: seq<T>, size: nat, committed: nat, log: seq<Delivery<T>>, batch: seq<T>, pos: nat)
    requires size > 0 && Consistent(items, size, committed, log)
    requires batch != [] && committed + |batch| <= |items| && batch == items[committed..committed + |batch|]
    requires |batch| == if |items| - committed < size then |items| - committed else size
    ensures
      var log' := log + [Delivery(committed, pos, batch)];
      && Consistent(items, size, committed, log') && Consistent(items, size, committed + |batch|, log')
      && Repeats(log', committed) == Repeats(log, committed) + 1
        && Repeats(log', committed + |batch|) == Repeats(log, committed)
  {
    hide Concat;
    var log' := log + [Delivery(committed, pos, batch)];
    assert log'[..|log'| - 1] == log;
    assert items[..committed] + batch == items[..committed + |batch|];
    if |items| - committed >= size && committed % size == 0 {
      OneMore(committed, size);
    }
    if Pending(log, committed) {
      assert WithoutRepeats(log') == WithoutRepeats(log);
      var last := log[|log| - 1].items;
      assert last == (items[..committed] + last)[committed..] == items[..committed + |batch|][committed..] == batch;
    } else {
      assert WithoutRepeats(log') == WithoutRepeats(log) + [batch];
      ConcatParts(WithoutRepeats(log), [batch]);
      ConcatOne(batch);
    }
  }

  lemma OpenConsistent<T>(items: seq<T>, size: nat, committed: nat, log: seq<Delivery<T>>)
    requires size > 0 && Consistent(items, size, committed, log)
    ensures committed <= |items| && (committed % size == 0 || committed == |items|)
    ensures committed == |items| ==> !Pending(log, committed)
  {
    hide Concat;
  }

  lemma KeptLength<T>(items: seq<T>, start: nat)
    requires start <= |items|
    ensures start + |Kept(items, start)| == |items|
  {
  }

  lemma NoRepeats<T>()
    ensures Repeats<T>([], 0) == 0
  {
  }

  /** A batch holds the items at its index, as many as there are up to the size of a batch. */
  lemma BatchAt<T>(items: seq<T>, size: nat, start: nat, batches: seq<seq<T>>, i: nat)
    requires start <= |items| && Concat(batches) == Kept(items, start) && Even(batches, size) && i < |batches|
    ensures
      var at, batch := start + |Concat(batches[..i])|, batches[i];
      && at + |batch| <= |items| && |Concat(batches[..i + 1])| == |Concat(batches[..i])| + |batch|
      && (batch != [] ==> batch == items[at..at + |batch|] && |batch| == if |items| - at < size then |items| - at
          else size)
  {
    hide Concat;
    var before, batch, after := batches[..i], batches[i], batches[i + 1..];
    assert batches == (before + [batch]) + after && batches[..i + 1] == before + [batch];
    ConcatParts(before + [batch], after);
    ConcatParts(before, [batch]);
    ConcatOne(batch);
    ConcatOne<T>([]);
    var all := items[start..];
    var at := |Concat(before)|;
    assert all == Concat(before) + batch + Concat(after);
    assert all[at..at + |batch|] == batch;
    if i == |batches| - 1 {
      assert after == [];
    }
  }

  /** Where a run is cut short: before a batch is delivered, or behind that but before it is committed. */
  datatype Crash = Never | BeforeBatch(n: nat) | AfterBatch(n: nat)

  class JsonlLoadJob<T> {
    const lines: seq<seq<T>>
    const batchSize: nat
    var currentIndex: nat
    ghost var log: seq<Delivery<T>>

    /** `currentIndex` is the index committed to the state of the destination. */
    ghost predicate Valid()
      reads this
    {
      && batchSize > 0 && Placed(Concat(lines), log)
      && (Aligned(lines, 0, batchSize) ==> Consistent(Concat(lines), batchSize, currentIndex, log))
    }

    constructor (lines: seq<seq<T>>, batchSize: nat)
      requires batchSize > 0
      ensures Valid() && this.lines == lines && this.batchSize == batchSize && log == [] && currentIndex == 0
    {
      this.lines, this.batchSize, currentIndex, log := lines, batchSize, 0, [];
      new;
      ModIs(0, batchSize, 0, 0);
    }

    /** One run of the job, from the index last committed to the end or to a crash: in any file, what was
        delivered in addition are the items from that index up to where the delivered batches reach, and
        the index moves on by the sizes of the committed ones. So a run that is not cut short completes
        the delivery if and only if nothing below the index it started from is missing. Where batches end
        with lines a run delivers in order, and only a crash behind a batch causes a redelivery. */
    method Run(crash: Crash)
      requires Valid()
      modifies this
      ensures Valid() && currentIndex >= old(currentIndex) && old(log) <= log
      ensures
        var batches := JsonlBatches(lines, old(currentIndex), batchSize);
        var (delivered, committed) := Cut(crash, |batches|);
        && Delivered(log) == old(Delivered(log))
                             + Span(old(currentIndex), old(currentIndex) + Reached(batches[..delivered], batchSize))
        && currentIndex == old(currentIndex) + |Concat(batches[..committed])|
      ensures crash.Never? ==> (Span(0, |Concat(lines)|) <= Delivered(log) <==> old(NothingMissing()))
      ensures Aligned(lines, 0, batchSize) ==>
                && Repeats(log, currentIndex) <= old(Repeats(log, currentIndex)) + (if crash.AfterBatch? then 1 else 0)
                && (crash.Never? ==> currentIndex == |Concat(lines)| && !Pending(log, currentIndex))
    {
      hide *;
      OpenValid();
      MissingMeans();
      ghost var items, start, size, log0 := Concat(lines), currentIndex, batchSize, log;
      ghost var aligned := Aligned(lines, 0, batchSize);
      var batches := GetJsonlBatches(lines, currentIndex, batchSize);
      BatchesAreSlices(lines, start, size);
      ConcatOne<T>([]);
      assert batches[..0] == [];
      NothingReached(log, start, size);
      if aligned {
        OpenConsistent(items, size, currentIndex, log);
        AlignedRun(lines, start, size);
      }
      CutOff(crash, |batches|);
      for i := 0 to |batches|
        invariant Placed(items, log) && log0 <= log
        invariant currentIndex == start + |Concat(batches[..i])|
        invariant Since(log0, log, start, Reached(batches[..i], size))
        invariant forall n: nat :: crash == BeforeBatch(n) || crash == AfterBatch(n) ==> i <= n
        invariant aligned ==> Consistent(items, size, currentIndex, log)
        invariant aligned ==> Repeats(log, currentIndex) <= Repeats(log0, start)
      {
        var batch := batches[i];
        ReachedMore(Kept(items, start), batches, size, i);
        ConcatNext(batches, i);
        if crash == BeforeBatch(i) {
          SinceMeans(log0, log, start, Reached(batches[..i], size));
          CloseValid();
          return;
        }
        ghost var pos, log1 := start + Base(batches[..i], size), log;
        if batch != [] {
          SlicePlaced(items, start, batches, size, i);
          if aligned {
            BatchAt(items, size, start, batches, i);
            DeliveredOnce(items, size, currentIndex, log, batch, pos);
          }
          PlacedMore(items, log, Delivery(currentIndex, pos, batch));
          log := log + [Delivery(currentIndex, pos, batch)];
        }
        SinceMore(log0, log1, start, Base(batches[..i], size), Reached(batches[..i], size), currentIndex, batch);
        if crash == AfterBatch(i) {
          SinceMeans(log0, log, start, Reached(batches[..i + 1], size));
          CloseValid();
          return;
        }
        currentIndex := currentIndex + |batch|;
      }
      assert batches[..|batches|] == batches;
      if aligned {
        KeptLength(items, start);
        OpenConsistent(items, size, currentIndex, log);
      }
      SinceMeans(log0, log, start, Reached(batches, size));
      CompletedExactly(items, start, Delivered(log0), Delivered(log));
      CloseValid();
    }

    /** Whether all items below the committed index were delivered. */
    ghost predicate NothingMissing()
      reads this
    {
      AllBelow(Delivered(log), currentIndex, |Concat(lines)|)
    }

    lemma OpenValid()
      requires Valid()
      ensures batchSize > 0 && Placed(Concat(lines), log)
      ensures Aligned(lines, 0, batchSize) ==> Consistent(Concat(lines), batchSize, currentIndex, log)
    {
      hide Placed, Consistent, Aligned, Concat;
    }

    lemma MissingMeans()
      ensures NothingMissing() <==> AllBelow(Delivered(log), currentIndex, |Concat(lines)|)
    {
    }

    lemma CloseValid()
      requires batchSize > 0 && Placed(Concat(lines), log)
      requires Aligned(lines, 0, batchSize) ==> Consistent(Concat(lines), batchSize, currentIndex, log)
      ensures Valid()
    {
      hide Placed, Consistent, Aligned, Concat;
    }

    /** Any number of runs that are cut short, and one that is not: all items were delivered if and only if
        no restart began beyond what was delivered, with items left. Where batches end with lines they
        were delivered exactly, in order, with at most one batch again for each crash. */
    method RunUntilDone(crashes: seq<Crash>)
      requires Valid() && log == [] && currentIndex == 0
      modifies this
      ensures Valid()
      ensures Delivered(log) == Span(0, |Concat(lines)|) <==> !ResumedAll(lines, batchSize, crashes + [Never]).lost
      ensures Aligned(lines, 0, batchSize) ==>
                && currentIndex == |Concat(lines)| && Concat(WithoutRepeats(log)) == Concat(lines)
                && |log| - |WithoutRepeats(log)| <= |crashes|
    {
      hide *;
      OpenValid();
      ghost var items, size, aligned := Concat(lines), batchSize, Aligned(lines, 0, batchSize);
      NoRepeats<T>();
      NothingTracked(lines, size);
      for i := 0 to |crashes|
        invariant Valid() && currentIndex == ResumedAll(lines, size, crashes[..i]).index
        invariant Tracks(items, ResumedAll(lines, size, crashes[..i]), Delivered(log))
        invariant aligned ==> Repeats(log, currentIndex) <= i
      {
        ghost var before := Delivered(log);
        Run(crashes[i]);
        assert crashes[..i + 1][..i] == crashes[..i] && crashes[..i + 1][i] == crashes[i];
        ResumedOnce(lines, size, crashes[..i + 1], before, Delivered(log));
      }
      assert crashes[..|crashes|] == crashes;
      OpenValid();
      MissingMeans();
      ghost var before := Delivered(log);
      Run(Never);
      assert (crashes + [Never])[..|crashes|] == crashes && (crashes + [Never])[|crashes|] == Never;
      ResumedOnce(lines, size, crashes + [Never], before, Delivered(log));
      ResumedLast(lines, size, crashes, Never);
      AllDelivered(lines, size, ResumedAll(lines, size, crashes), before, Delivered(log));
      if aligned {
        OpenValid();
        AllInOrder(items, size, currentIndex, log);
      }
    }
  }

  /** Since `log0`, the items from `start` on were delivered as far as `reached`. */
  ghost predicate Since<T>(log0: seq<Delivery<T>>, log: seq<Delivery<T>>, start: nat, reached: nat) {
    log0 <= log && Delivered(log) == Delivered(log0) + Span(start, start + reached)
  }

  lemma SinceMeans<T>(log0: seq<Delivery<T>>, log: seq<Delivery<T>>, start: nat, reached: nat)
    requires Since(log0, log, start, reached)
    ensures log0 <= log && Delivered(log) == Delivered(log0) + Span(start, start + reached)
  {
  }

  lemma NothingReached<T>(log: seq<Delivery<T>>, start: nat, size: nat)
    ensures Reached<T>([], size) == 0 && Since(log, log, start, 0)
  {
  }

  lemma SinceMore<T>(log0: seq<Delivery<T>>, log: seq<Delivery<T>>, start: nat, base: nat, reached: nat, at: nat,
                     batch: seq<T>)
    requires Since(log0, log, start, reached) && base <= reached <= base + |batch|
    ensures Since(log0, if batch == [] then log else log + [Delivery(at, start + base, batch)], start, base + |batch|)
  {
    hide Span, Delivered;
    SpanGrows(start, base, reached, |batch|);
    if batch != [] {
      var d := Delivery(at, start + base, batch);
      DeliveredMore(log, d);
      assert log0 <= log + [d];
    }
  }

  lemma DeliveredMore<T>(log: seq<Delivery<T>>, d: Delivery<T>)
    ensures Delivered(log + [d]) == Delivered(log) + Span(d.pos, d.pos + |d.items|)
  {
    assert (log + [d])[..|log|] == log;
  }

  lemma AlignedRun<T>(lines: seq<seq<T>>, start: nat, size: nat)
    requires size > 0 && Aligned(lines, 0, size) && start <= |Concat(lines)|
    requires start % size == 0 || start == |Concat(lines)|
    ensures
      var batches := JsonlBatches(lines, start, size);
      Concat(batches) == Kept(Concat(lines), start) && (batches != [] ==> Even(batches, size))
  {
    hide Concat, Aligned, Even, TakeLine;
    if lines == [] {
      ConcatOne<T>([]);
    } else {
      AlignedLater(lines, start, size);
      AlignedInOrder(lines, start, size);
      AlignedEven(lines, start, size);
    }
  }

  lemma CutOff(crash: Crash, n: nat)
    ensures crash == Never ==> Cut(crash, n) == (n, n)
    ensures forall i: nat :: crash == BeforeBatch(i) ==> Cut(crash, n) == if i < n then (i, i) else (n, n)
    ensures forall i: nat :: crash == AfterBatch(i) ==> Cut(crash, n) == if i < n then (i + 1, i) else (n, n)
  {
  }

  lemma ConcatNext<T>(batches: seq<seq<T>>, i: nat)
    requires i < |batches|
    ensures |Concat(batches[..i + 1])| == |Concat(batches[..i])| + |batches[i]|
  {
    hide Concat;
    assert batches[..i + 1][..i] == batches[..i];
    ConcatLast(batches[..i + 1]);
  }

  lemma PlacedMore<T>(items: seq<T>, log: seq<Delivery<T>>, d: Delivery<T>)
    requires Placed(items, log) && d.pos + |d.items| <= |items| && d.items == items[d.pos..d.pos + |d.items|]
    ensures Placed(items, log + [d])
  {
    forall e | e in log + [d] ensures e == d || e in log {
    }
  }

  lemma SpanGrows(start: nat, base: nat, reached: nat, n: nat)
    requires base <= reached <= base + n
    ensures Span(start, start + reached) + Span(start + base, start + base + n) == Span(start, start + (base + n))
    ensures n == 0 ==> Span(start, start + reached) == Span(start, start + (base + n))
  {
  }

  lemma CompletedExactly<T>(items: seq<T>, start: nat, before: set<nat>, after: set<nat>)
    requires after == before + Span(start, start + |Kept(items, start)|)
    ensures Span(0, |items|) <= after <==> AllBelow(before, start, |items|)
  {
    if Span(0, |items|) <= after {
      forall x: nat | x < start && x < |items| ensures x in before {
        assert x in Span(0, |items|);
      }
    }
  }

  lemma NothingTracked<T>(lines: seq<seq<T>>, size: nat)
    ensures ResumedAll(lines, size, []) == Progress(0, 0, false)
    ensures Tracks(Concat(lines), Progress(0, 0, false), Delivered<T>([]))
  {
  }

  lemma ResumedLast<T>(lines: seq<seq<T>>, size: nat, crashes: seq<Crash>, crash: Crash)
    ensures ResumedAll(lines, size, crashes + [crash]) == Resumed(lines, size, ResumedAll(lines, size, crashes), crash)
  {
    hide Resumed;
    assert (crashes + [crash])[..|crashes|] == crashes;
  }

  lemma ResumedOnce<T>(lines: seq<seq<T>>, size: nat, crashes: seq<Crash>, before: set<nat>, after: set<nat>)
    requires size > 0 && crashes != []
    requires
      var p, crash := ResumedAll(lines, size, crashes[..|crashes| - 1]), crashes[|crashes| - 1];
      var batches := JsonlBatches(lines, p.index, size);
      && Tracks(Concat(lines), p, before)
      && after == before + Span(p.index, p.index + Reached(batches[..Cut(crash, |batches|).0], size))
    ensures
      var p, crash := ResumedAll(lines, size, crashes[..|crashes| - 1]), crashes[|crashes| - 1];
      var batches := JsonlBatches(lines, p.index, size);
      && Tracks(Concat(lines), ResumedAll(lines, size, crashes), after)
      && ResumedAll(lines, size, crashes).index == p.index + |Concat(batches[..Cut(crash, |batches|).1])|
  {
    hide Tracks, Reached, JsonlBatches, Concat, Cut;
    var p, crash := ResumedAll(lines, size, crashes[..|crashes| - 1]), crashes[|crashes| - 1];
    ResumedTracks(lines, size, p, crash, before, after);
  }

  /** After a run to the end, all items were delivered unless some were lost. */
  lemma AllDelivered<T>(lines: seq<seq<T>>, size: nat, p: Progress, before: set<nat>, after: set<nat>)
    requires size > 0 && Tracks(Concat(lines), p, before)
    requires Tracks(Concat(lines), Resumed(lines, size, p, Never), after)
    requires Span(0, |Concat(lines)|) <= after <==> AllBelow(before, p.index, |Concat(lines)|)
    ensures after == Span(0, |Concat(lines)|) <==> !Resumed(lines, size, p, Never).lost
  {
    hide Reached, JsonlBatches, Concat;
    var q, n := Resumed(lines, size, p, Never), |Concat(lines)|;
    if q.lost {
      var x: nat :| x < q.index && x < n && x !in after;
      assert x in Span(0, n);
    } else {
      assert before == Span(0, p.reach) && after == Span(0, q.reach);
      assert p.reach >= p.index || p.reach >= n;
      assert n > 0 ==> n - 1 in after;
    }
  }

  lemma AllInOrder<T>(items: seq<T>, size: nat, committed: nat, log: seq<Delivery<T>>)
    requires size > 0 && Consistent(items, size, committed, log) && committed == |items| && !Pending(log, committed)
    ensures Concat(WithoutRepeats(log)) == items && Repeats(log, committed) == |log| - |WithoutRepeats(log)|
  {
    hide Concat;
    assert items[..|items|] == items;
  }

  // ---------------------------------------------------------------------------------------
  // Batches of a Parquet file

  /** The record batches of a file. */
  function Pieces<T>(rows: seq<T>, size: nat): seq<seq<T>>
    requires size > 0
  {
    if rows == [] then []
    else if |rows| <= size then [rows]
    else [rows[..size]] + Pieces(rows[size..], size)
  }

  function Times(k: nat, size: nat): nat {
    if k == 0 then 0 else size + Times(k - 1, size)
  }

  lemma {:induction false} TimesIs(k: nat, size: nat)
    ensures Times(k, size) == k * size
  {
    if k > 0 {
      TimesIs(k - 1, size);
      assert k * size == size + (k - 1) * size;
    }
  }

  lemma {:induction false} PiecesDropped<T>(rows: seq<T>, size: nat, k: nat)
    requires size > 0
    ensures Kept(Pieces(rows, size), k) == Pieces(Kept(rows, Times(k, size)), size)
    decreases k
  {
    if k == 0 {
      assert Kept(rows, 0) == rows;
    } else if |rows| > size {
      PiecesDropped(rows[size..], size, k - 1);
      assert Kept(rows, Times(k, size)) == Kept(rows[size..], Times(k - 1, size));
      assert Kept(Pieces(rows, size), k) == Kept(Pieces(rows[size..], size), k - 1);
    } else {
      assert Kept(Pieces(rows, size), k) == [] && Kept(rows, Times(k, size)) == [];
    }
  }

  lemma FullInFront<T>(first: seq<T>, rest: seq<seq<T>>, size: nat)
    requires |first| == size && Even(rest, size)
    ensures Even([first] + rest, size)
  {
  }

  /** The record batches are the rows, in order, all but the last full. */
  lemma {:induction false} PiecesAreRows<T>(rows: seq<T>, size: nat)
    requires size > 0
    ensures Concat(Pieces(rows, size)) == rows
    ensures rows != [] ==> Even(Pieces(rows, size), size)
  {
    hide Concat;
    if rows == [] {
      ConcatOne<T>([]);
    } else if |rows| <= size {
      ConcatOne(rows);
    } else {
      var first, rest := rows[..size], Pieces(rows[size..], size);
      PiecesAreRows(rows[size..], size);
      ConcatParts([first], rest);
      ConcatOne(first);
      assert Pieces(rows, size) == [first] + rest;
      assert first + rows[size..] == rows;
      FullInFront(first, rest, size);
    }
  }

  /** A job can be resumed exactly at multiples of the batch size, and then gets the batches of the rows
      that are left; at any other index, such as the end of a file whose last batch was not full, it
      fails. */
  method GetParquetBatches<T>(rows: seq<T>, startIndex: nat, batchSize: nat) returns (r: Option<seq<seq<T>>>)
    requires batchSize > 0
    ensures r.Some? <==> startIndex % batchSize == 0
    ensures r.Some? ==> r.value == Pieces(Kept(rows, startIndex), batchSize)
  {
    // guard against a batch size that changed
    if startIndex % batchSize != 0 {
      return None;
    }
    hide Pieces, Kept, Times;
    WholeBatches(startIndex, batchSize);
    var startBatch := startIndex / batchSize;
    ghost var skip := startBatch;
    var recordBatches := Pieces(rows, batchSize);
    var batches: seq<seq<T>> := [];
    NoneKept<seq<T>>(skip);
    assert recordBatches[..0] == [];
    for i := 0 to |recordBatches|
      invariant startBatch == if i < skip then skip - i else 0
      invariant batches == Kept(recordBatches[..i], skip)
    {
      KeptNext(recordBatches, i, skip);
      if startBatch > 0 {
        startBatch := startBatch - 1;
        continue;
      }
      batches := batches + [recordBatches[i]];
    }
    assert recordBatches[..|recordBatches|] == recordBatches;
    PiecesDropped(rows, batchSize, skip);
    return Some(batches);
  }

  lemma WholeBatches(index: nat, size: nat)
    requires size > 0 && index % size == 0
    ensures Times(index / size, size) == index
  {
    TimesIs(index / size, size);
    assert index == size * (index / size);
  }

  lemma NoneKept<T>(skip: nat)
    ensures Kept<T>([], skip) == []
  {
  }

  lemma KeptNext<T>(items: seq<T>, i: nat, skip: nat)
    requires i < |items|
    ensures Kept(items[..i + 1], skip) == Kept(items[..i], skip) + if i < skip then [] else [items[i]]
  {
    if i < skip {
      assert Kept(items[..i + 1], skip) == [];
    }
  }
}
