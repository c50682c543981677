/**
  Packing statements into as few queries of limited length as possible, keeping their order.
*/
module StatementPacking {
  import opened Sequences

  function JoinAll(separator: string, groups: seq<seq<string>>): seq<string> {
    if groups == [] then [] else [Join(separator, groups[0])] + JoinAll(separator, groups[1..])
  }

  // ---------------------------------------------------------------------------------------
  // The greedy rule

  /** How many more strings fit behind a query of length `current`. */
  function More(strings: seq<string>, current: nat, sepLen: nat, limit: int): (n: nat)
    ensures n <= |strings|
    decreases strings
  {
    if strings == [] || current + |strings[0]| + sepLen > limit then 0
    else 1 + More(strings[1..], current + |strings[0]| + sepLen, sepLen, limit)
  }

  /** The size of the first group: a string goes in if it fits, the first one in any case. */
  function First(strings: seq<string>, sepLen: nat, limit: int): (n: nat)
    requires strings != []
    ensures 0 < n <= |strings|
  {
    1 + More(strings[1..], |strings[0]|, sepLen, limit)
  }

  function Pack(strings: seq<string>, sepLen: nat, limit: int): seq<seq<string>> {
    if strings == [] then []
    else [strings[..First(strings, sepLen, limit)]] + Pack(strings[First(strings, sepLen, limit)..], sepLen, limit)
  }

  method ConcatStringsWithLimit(strings: seq<string>, separator: string, limit: int) returns (fragments: seq<string>)
    ensures fragments == JoinAll(separator, Pack(strings, |separator|, limit))
    ensures PacksWell(strings, separator, limit, fragments)
  {
    hide Join, JoinAll, Pack, More, First, Filling, Packed, PacksWell;
    fragments := [];
    PacksDoWell(strings, separator, limit);
    if strings == [] {
      NothingJoined(separator, |separator|, limit);
      return;
    }
    var currentLength: nat := |strings[0]|;
    var start := 0;
    var sepLen := |separator|;
    ghost var all := JoinAll(separator, Pack(strings, sepLen, limit));
    NothingPacked(separator, strings, limit);
    StartFilling(strings, 0, sepLen, limit);
    for i := 1 to |strings|
      invariant start < i
      invariant Packed(all, fragments, separator, strings, start, limit)
      invariant Filling(strings, start, i, currentLength, sepLen, limit)
    {
      Fill(strings, start, i, currentLength, sepLen, limit);
      // the separator in front of it takes space as well
      if currentLength + |strings[i]| + sepLen > limit {
        fragments := Emit(fragments, strings, separator, start, i, limit, all);
        start := i;
        currentLength := |strings[i]|;
        StartFilling(strings, i, sepLen, limit);
      } else {
        currentLength := currentLength + |strings[i]| + sepLen;
      }
    }
    Fill(strings, start, |strings|, currentLength, sepLen, limit);
    fragments := Emit(fragments, strings, separator, start, |strings|, limit, all);
    AllPacked(all, fragments, separator, strings, limit);
  }

  /** `all` are the fragments so far, and those of the strings from `start` on. */
  predicate Packed(all: seq<string>, fragments: seq<string>, separator: string, strings: seq<string>, start: nat,
                   limit: int)
  {
    start <= |strings| && all == fragments + JoinAll(separator, Pack(strings[start..], |separator|, limit))
  }

  lemma NothingPacked(separator: string, strings: seq<string>, limit: int)
    ensures Packed(JoinAll(separator, Pack(strings, |separator|, limit)), [], separator, strings, 0, limit)
  {
    hide JoinAll, Pack;
    assert strings[0..] == strings;
    var all := JoinAll(separator, Pack(strings, |separator|, limit));
    assert [] + all == all;
  }

  lemma AllPacked(all: seq<string>, fragments: seq<string>, separator: string, strings: seq<string>, limit: int)
    requires Packed(all, fragments, separator, strings, |strings|, limit)
    ensures all == fragments
  {
    assert strings[|strings|..] == [];
    NothingJoined(separator, |separator|, limit);
    assert fragments + [] == fragments;
  }

  /** The strings from `start` up to `i` go together, and so far make a query of length `current`. */
  predicate Filling(strings: seq<string>, start: nat, i: nat, current: nat, sepLen: nat, limit: int) {
    start < i <= |strings| && First(strings[start..], sepLen, limit) == i - start
      + More(strings[i..], current, sepLen, limit)
  }

  lemma StartFilling(strings: seq<string>, i: nat, sepLen: nat, limit: int)
    requires i < |strings|
    ensures Filling(strings, i, i + 1, |strings[i]|, sepLen, limit)
  {
    assert strings[i..][1..] == strings[i + 1..];
  }

  lemma Fill(strings: seq<string>, start: nat, i: nat, current: nat, sepLen: nat, limit: int)
    requires Filling(strings, start, i, current, sepLen, limit)
    ensures i == |strings| || current + |strings[i]| + sepLen > limit ==>
            First(strings[start..], sepLen, limit) == i - start
    ensures i < |strings| && current + |strings[i]| + sepLen <= limit ==>
              Filling(strings, start, i + 1, current + |strings[i]| + sepLen, sepLen, limit)
  {
    hide First;
    if i < |strings| {
      assert strings[i..][1..] == strings[i + 1..];
    }
  }

  /** Yields the strings from `start` up to `i` joined. */
  method Emit(fragments: seq<string>, strings: seq<string>, separator: string, start: nat, i: nat, limit: int,
              ghost all: seq<string>)
    returns (fragments': seq<string>)
    requires start < i <= |strings| && First(strings[start..], |separator|, limit) == i - start
    requires Packed(all, fragments, separator, strings, start, limit)
    ensures Packed(all, fragments', separator, strings, i, limit)
  {
    hide Join, JoinAll, Pack, First;
    PackStep(separator, strings, start, i, limit);
    fragments' := fragments + [Join(separator, strings[start..i])];
    ghost var rest := JoinAll(separator, Pack(strings[i..], |separator|, limit));
    assert fragments + ([Join(separator, strings[start..i])] + rest) == fragments' + rest;
  }

  lemma NothingJoined(separator: string, sepLen: nat, limit: int)
    ensures JoinAll(separator, Pack([], sepLen, limit)) == []
  {
  }

  lemma PackStep(separator: string, strings: seq<string>, start: nat, i: nat, limit: int)
    requires start < i <= |strings| && First(strings[start..], |separator|, limit) == i - start
    ensures JoinAll(separator, Pack(strings[start..], |separator|, limit))
            == [Join(separator, strings[start..i])] + JoinAll(separator, Pack(strings[i..], |separator|, limit))
  {
    hide Join, First;
    var left := strings[start..];
    assert left[..i - start] == strings[start..i] && left[i - start..] == strings[i..];
    var rest := Pack(strings[i..], |separator|, limit);
    assert Pack(left, |separator|, limit) == [strings[start..i]] + rest;
    assert ([strings[start..i]] + rest)[1..] == rest;
  }

  // ---------------------------------------------------------------------------------------
  // Nothing is lost

  ghost predicate NoneEmpty(groups: seq<seq<string>>) {
    forall i :: 0 <= i < |groups| ==> groups[i] != []
  }

  /** Joining joined groups is joining all strings, however they are grouped. */
  lemma {:induction false} JoinOfGroups(separator: string, groups: seq<seq<string>>)
    requires NoneEmpty(groups)
    ensures Join(separator, JoinAll(separator, groups)) == Join(separator, Concat(groups))
    ensures |JoinAll(separator, groups)| == |groups|
    ensures groups != [] ==> Concat(groups) != []
  {
    if groups != [] {
      JoinOfGroups(separator, groups[1..]);
      if |groups| == 1 {
        assert Concat(groups) == groups[0] + [] == groups[0];
      } else {
        assert groups[0] != [] && groups[1] != [];
        JoinConcat(separator, groups[0], Concat(groups[1..]));
        assert JoinAll(separator, groups)[1..] == JoinAll(separator, groups[1..]);
      }
    }
  }

  /** The groups are consecutive and not empty, and joined again they give all strings joined. */
  lemma {:induction false} PackingKeepsAll(strings: seq<string>, separator: string, limit: int)
    ensures Concat(Pack(strings, |separator|, limit)) == strings && NoneEmpty(Pack(strings, |separator|, limit))
    ensures Join(separator, JoinAll(separator, Pack(strings, |separator|, limit))) == Join(separator, strings)
  {
    hide Join, JoinAll;
    if strings != [] {
      var n := First(strings, |separator|, limit);
      PackingKeepsAll(strings[n..], separator, limit);
    }
    JoinOfGroups(separator, Pack(strings, |separator|, limit));
  }

  // ---------------------------------------------------------------------------------------
  // No other grouping is shorter

  function Length(strings: seq<string>, sepLen: nat): nat {
    if strings == [] then 0
    else if |strings| == 1 then |strings[0]|
    else |strings[0]| + sepLen + Length(strings[1..], sepLen)
  }

  lemma {:induction false} LengthOfJoin(separator: string, strings: seq<string>)
    ensures |Join(separator, strings)| == Length(strings, |separator|)
  {
    if |strings| > 1 {
      LengthOfJoin(separator, strings[1..]);
    }
  }

  /** A group may be as long as the limit, or a single string of any length. */
  predicate Allowed(group: seq<string>, sepLen: nat, limit: int) {
    |group| == 1 || (group != [] && Length(group, sepLen) <= limit)
  }

  /** Behind a string of length `current`, `n` strings fit just when their joined length does. */
  lemma {:induction false} MoreExactly(strings: seq<string>, current: nat, sepLen: nat, limit: int, n: nat)
    requires 0 < n <= |strings|
    ensures n <= More(strings, current, sepLen, limit) <==> current + sepLen + Length(strings[..n], sepLen) <= limit
    decreases n
  {
    assert strings[..n][1..] == strings[1..][..n - 1];
    if n > 1 {
      MoreExactly(strings[1..], current + |strings[0]| + sepLen, sepLen, limit, n - 1);
    }
  }

  /** The first group is the longest allowed. */
  lemma FirstIsLongest(strings: seq<string>, sepLen: nat, limit: int, n: nat)
    requires 0 < n <= |strings|
    ensures n <= First(strings, sepLen, limit) <==> Allowed(strings[..n], sepLen, limit)
  {
    if n > 1 {
      MoreExactly(strings[1..], |strings[0]|, sepLen, limit, n - 1);
      assert strings[..n][1..] == strings[1..][..n - 1];
    }
  }

  lemma {:induction false} PartIsShorter(group: seq<string>, sepLen: nat, k: nat)
    requires k < |group|
    ensures Length(group[k..], sepLen) <= Length(group, sepLen)
  {
    if k > 0 {
      PartIsShorter(group[1..], sepLen, k - 1);
      assert group[1..][k - 1..] == group[k..];
    } else {
      assert group[0..] == group;
    }
  }

  ghost predicate AllAllowed(groups: seq<seq<string>>, sepLen: nat, limit: int) {
    forall i :: 0 <= i < |groups| ==> Allowed(groups[i], sepLen, limit)
  }

  lemma {:induction false} PacksAllowed(strings: seq<string>, sepLen: nat, limit: int)
    ensures AllAllowed(Pack(strings, sepLen, limit), sepLen, limit)
  {
    if strings != [] {
      var n := First(strings, sepLen, limit);
      FirstIsLongest(strings, sepLen, limit, n);
      PacksAllowed(strings[n..], sepLen, limit);
    }
  }

  /** However the strings are grouped, greedy packing stays ahead, even when it starts `k` strings later. */
  lemma {:induction false} GreedyStaysAhead(strings: seq<string>, sepLen: nat, limit: int, groups: seq<seq<string>>,
                                            k: nat)
    requires AllAllowed(groups, sepLen, limit) && Concat(groups) == strings && k <= |strings|
    ensures |Pack(strings[k..], sepLen, limit)| <= |groups|
    decreases groups
  {
    hide Pack, Allowed, Length, First, Concat;
    if k == |strings| {
      NothingToPack(sepLen, limit);
    } else {
      ConcatStep(groups, strings);
      var e := |groups[0]|;
      if e <= k {
        GreedyStaysAhead(strings[e..], sepLen, limit, groups[1..], k - e);
        assert strings[e..][k - e..] == strings[k..];
      } else {
        var left := strings[k..];
        var n := First(left, sepLen, limit);
        assert left[..e - k] == groups[0][k..];
        PartAllowed(groups[0], sepLen, limit, k);
        FirstIsLongest(left, sepLen, limit, e - k);
        GreedyStaysAhead(strings[e..], sepLen, limit, groups[1..], k + n - e);
        assert strings[e..][k + n - e..] == left[n..];
        PackCounts(left, sepLen, limit);
      }
    }
  }

  lemma NothingToPack(sepLen: nat, limit: int)
    ensures Pack([], sepLen, limit) == []
  {
  }

  lemma ConcatStep(groups: seq<seq<string>>, strings: seq<string>)
    requires Concat(groups) == strings && strings != []
    ensures groups != [] && |groups[0]| <= |strings| && groups[0] == strings[..|groups[0]|]
            && Concat(groups[1..]) == strings[|groups[0]|..]
  {
  }

  lemma PartAllowed(group: seq<string>, sepLen: nat, limit: int, k: nat)
    requires Allowed(group, sepLen, limit) && k < |group|
    ensures Allowed(group[k..], sepLen, limit)
  {
    PartIsShorter(group, sepLen, k);
  }

  lemma PackCounts(strings: seq<string>, sepLen: nat, limit: int)
    requires strings != []
    ensures |Pack(strings, sepLen, limit)| == 1 + |Pack(strings[First(strings, sepLen, limit)..], sepLen, limit)|
  {
  }

  /** Every fragment is a group of the strings, in order, joined; none is longer than the limit but for a
      single string; and no such grouping has fewer. */
  ghost predicate PacksWell(strings: seq<string>, separator: string, limit: int, fragments: seq<string>) {
    && Join(separator, fragments) == Join(separator, strings)
    && (exists groups :: AreGroups(strings, separator, fragments, groups))
    && (forall f :: f in fragments ==> |f| <= limit || f in strings)
    && forall groups: seq<seq<string>>, other: seq<string> ::
         AreGroups(strings, separator, other, groups)
         && (forall i :: 0 <= i < |groups| ==> |other[i]| <= limit || |groups[i]| == 1) ==>
           |fragments| <= |groups|
  }

  /** The fragments are these groups joined, and the groups are the strings, none of them empty. */
  ghost predicate AreGroups(strings: seq<string>, separator: string, fragments: seq<string>, groups: seq<seq<string>>)
  {
    && Concat(groups) == strings && NoneEmpty(groups) && |fragments| == |groups|
    && forall i :: 0 <= i < |groups| ==> fragments[i] == Join(separator, groups[i])
  }

  lemma {:induction false} JoinAllIs(separator: string, groups: seq<seq<string>>)
    ensures |JoinAll(separator, groups)| == |groups|
    ensures forall i :: 0 <= i < |groups| ==> JoinAll(separator, groups)[i] == Join(separator, groups[i])
  {
    if groups != [] {
      JoinAllIs(separator, groups[1..]);
    }
  }

  lemma {:induction false} InConcat(groups: seq<seq<string>>, i: nat, s: string)
    requires i < |groups| && s in groups[i]
    ensures s in Concat(groups)
  {
    if i > 0 {
      InConcat(groups[1..], i - 1, s);
    }
  }

  lemma PacksDoWell(strings: seq<string>, separator: string, limit: int)
    ensures PacksWell(strings, separator, limit, JoinAll(separator, Pack(strings, |separator|, limit)))
  {
    hide Join, JoinAll, Pack, Concat;
    var packs := Pack(strings, |separator|, limit);
    var fragments := JoinAll(separator, packs);
    PackingKeepsAll(strings, separator, limit);
    PacksAllowed(strings, |separator|, limit);
    JoinAllIs(separator, packs);
    assert AreGroups(strings, separator, fragments, packs);
    forall f | f in fragments ensures |f| <= limit || f in strings {
      var i :| 0 <= i < |packs| && fragments[i] == f;
      LengthOfJoin(separator, packs[i]);
      if |packs[i]| == 1 {
        JoinOne(separator, packs[i]);
        InConcat(packs, i, f);
      }
    }
    forall groups: seq<seq<string>>, other: seq<string> |
      AreGroups(strings, separator, other, groups)
      && forall i :: 0 <= i < |groups| ==> |other[i]| <= limit || |groups[i]| == 1
      ensures |fragments| <= |groups|
    {
      forall i | 0 <= i < |groups| ensures Allowed(groups[i], |separator|, limit) {
        LengthOfJoin(separator, groups[i]);
      }
      PackingIsOptimal(strings, |separator|, limit, groups);
    }
  }

  lemma JoinOne(separator: string, group: seq<string>)
    requires |group| == 1
    ensures Join(separator, group) == group[0]
  {
  }

  /** No grouping of the strings under the same rule has fewer groups. */
  lemma PackingIsOptimal(strings: seq<string>, sepLen: nat, limit: int, groups: seq<seq<string>>)
    requires AllAllowed(groups, sepLen, limit) && Concat(groups) == strings
    ensures AllAllowed(Pack(strings, sepLen, limit), sepLen, limit) && Concat(Pack(strings, sepLen, limit)) == strings
    ensures |Pack(strings, sepLen, limit)| <= |groups|
  {
    PacksAllowed(strings, sepLen, limit);
    PackingKeepsAll(strings, seq(sepLen, _ => ' '), limit);
    GreedyStaysAhead(strings, sepLen, limit, groups, 0);
    assert strings[0..] == strings;
  }
}
