/** Sums of numbers and of bags over the elements of a sequence. */
module Sums {
  ghost function Total<T>(s: seq<T>, f: T -> nat): nat {
    if s == [] then 0 else f(s[0]) + Total(s[1..], f)
  }

  lemma {:induction false} TotalConcat<T>(s: seq<T>, t: seq<T>, f: T -> nat)
    ensures Total(s + t, f) == Total(s, f) + Total(t, f)
  {
    if s == [] {
      assert s + t == t;
    } else {
      assert (s + t)[1..] == s[1..] + t;
      TotalConcat(s[1..], t, f);
    }
  }

  lemma TotalSplit<T>(s: seq<T>, i: nat, f: T -> nat)
    requires i < |s|
    ensures Total(s, f) == Total(s[..i], f) + f(s[i]) + Total(s[i + 1..], f)
  {
    assert s == s[..i] + ([s[i]] + s[i + 1..]);
    TotalConcat(s[..i], [s[i]] + s[i + 1..], f);
    TotalConcat([s[i]], s[i + 1..], f);
  }

  lemma TotalUpdate<T>(s: seq<T>, i: nat, x: T, f: T -> nat)
    requires i < |s|
    ensures Total(s[i := x], f) + f(s[i]) == Total(s, f) + f(x)
  {
    TotalSplit(s, i, f);
    TotalSplit(s[i := x], i, f);
    assert s[i := x][..i] == s[..i] && s[i := x][i + 1..] == s[i + 1..];
  }

  lemma TotalRemove<T>(s: seq<T>, i: nat, f: T -> nat)
    requires i < |s|
    ensures Total(s[..i] + s[i + 1..], f) + f(s[i]) == Total(s, f)
  {
    TotalSplit(s, i, f);
    TotalConcat(s[..i], s[i + 1..], f);
  }

  lemma TotalAppend<T>(s: seq<T>, x: T, f: T -> nat)
    ensures Total(s + [x], f) == Total(s, f) + f(x)
  {
    TotalConcat(s, [x], f);
  }

  ghost function Bag<T, U>(s: seq<T>, f: T -> multiset<U>): multiset<U> {
    if s == [] then multiset{} else f(s[0]) + Bag(s[1..], f)
  }

  lemma {:induction false} BagConcat<T, U>(s: seq<T>, t: seq<T>, f: T -> multiset<U>)
    ensures Bag(s + t, f) == Bag(s, f) + Bag(t, f)
  {
    if s == [] {
      assert s + t == t;
    } else {
      assert (s + t)[1..] == s[1..] + t;
      BagConcat(s[1..], t, f);
    }
  }

  lemma BagSplit<T, U>(s: seq<T>, i: nat, f: T -> multiset<U>)
    requires i < |s|
    ensures Bag(s, f) == Bag(s[..i], f) + f(s[i]) + Bag(s[i + 1..], f)
  {
    assert s == s[..i] + ([s[i]] + s[i + 1..]);
    BagConcat(s[..i], [s[i]] + s[i + 1..], f);
    BagConcat([s[i]], s[i + 1..], f);
    assert Bag([s[i]], f) == f(s[i]) + Bag([s[i]][1..], f);
  }

  lemma BagUpdate<T, U>(s: seq<T>, i: nat, x: T, f: T -> multiset<U>)
    requires i < |s|
    ensures Bag(s[i := x], f) + f(s[i]) == Bag(s, f) + f(x)
  {
    BagSplit(s, i, f);
    BagSplit(s[i := x], i, f);
    assert s[i := x][..i] == s[..i] && s[i := x][i + 1..] == s[i + 1..];
  }

  lemma BagKept<T, U>(s: seq<T>, i: nat, x: T, f: T -> multiset<U>)
    requires i < |s| && f(x) == f(s[i])
    ensures Bag(s[i := x], f) == Bag(s, f)
  {
    BagSplit(s, i, f);
    BagSplit(s[i := x], i, f);
    assert s[i := x][..i] == s[..i] && s[i := x][i + 1..] == s[i + 1..];
  }

  lemma BagRemove<T, U>(s: seq<T>, i: nat, f: T -> multiset<U>)
    requires i < |s|
    ensures Bag(s[..i] + s[i + 1..], f) + f(s[i]) == Bag(s, f)
  {
    BagSplit(s, i, f);
    BagConcat(s[..i], s[i + 1..], f);
  }

  lemma BagAppend<T, U>(s: seq<T>, x: T, f: T -> multiset<U>)
    ensures Bag(s + [x], f) == Bag(s, f) + f(x)
  {
    BagConcat(s, [x], f);
    assert Bag([x], f) == f(x) + Bag([x][1..], f);
  }
}
