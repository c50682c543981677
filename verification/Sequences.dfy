/** Concatenation of the parts of a sequence of sequences, and of strings with a separator. */
module Sequences {
  function Concat<T>(parts: seq<seq<T>>): seq<T> {
    if parts == [] then [] else parts[0] + Concat(parts[1..])
  }

  function Join(separator: string, strings: seq<string>): string {
    if strings == [] then ""
    else if |strings| == 1 then strings[0]
    else strings[0] + separator + Join(separator, strings[1..])
  }

  /** Where the k-th string begins in the joined text. */
  function Offset(strings: seq<string>, k: nat, n: nat): nat
    requires k <= |strings|
  {
    if k == 0 then 0 else Offset(strings, k - 1, n) + |strings[k - 1]| + n
  }

  lemma {:induction false} OffsetOfTail(strings: seq<string>, k: nat, n: nat)
    requires 0 < k <= |strings|
    ensures Offset(strings, k, n) == |strings[0]| + n + Offset(strings[1..], k - 1, n)
  {
    if k > 1 {
      OffsetOfTail(strings, k - 1, n);
    }
  }

  /** Joining puts every string at its place, in order, with the separator in front of all but the first,
      and nothing else. */
  lemma {:induction false} JoinAt(separator: string, strings: seq<string>, k: nat)
    requires k < |strings|
    ensures
      var text, at := Join(separator, strings), Offset(strings, k, |separator|);
      && at + |strings[k]| <= |text| && text[at..at + |strings[k]|] == strings[k]
      && (k > 0 ==> |separator| <= at && text[at - |separator|..at] == separator)
      && (k == |strings| - 1 ==> |text| == at + |strings[k]|)
    decreases strings
  {
    if |strings| > 1 {
      var front, rest := strings[0] + separator, Join(separator, strings[1..]);
      assert Join(separator, strings) == front + rest;
      if k == 0 {
        assert (front + rest)[0..|strings[0]|] == strings[0];
      } else {
        JoinAt(separator, strings[1..], k - 1);
        OffsetOfTail(strings, k, |separator|);
        var at := Offset(strings[1..], k - 1, |separator|);
        hide Join, Offset;
        SliceBehind(front, rest, at, at + |strings[k]|);
        if k > 1 {
          SliceBehind(front, rest, at - |separator|, at);
        } else {
          NoOffset(strings[1..], |separator|);
          assert (front + rest)[|strings[0]|..|front|] == separator;
        }
      }
    }
  }

  lemma NoOffset(strings: seq<string>, n: nat)
    ensures Offset(strings, 0, n) == 0
  {
  }

  lemma SliceBehind(front: string, rest: string, i: nat, j: nat)
    requires i <= j <= |rest|
    ensures (front + rest)[|front| + i..|front| + j] == rest[i..j]
  {
  }

  lemma {:induction false} JoinConcat(separator: string, a: seq<string>, b: seq<string>)
    requires a != [] && b != []
    ensures Join(separator, a + b) == Join(separator, a) + separator + Join(separator, b)
  {
    if |a| == 1 {
      assert (a + b)[1..] == b;
    } else {
      assert (a + b)[1..] == a[1..] + b;
      JoinConcat(separator, a[1..], b);
      var x, y, z := a[0] + separator, Join(separator, a[1..]), separator + Join(separator, b);
      assert x + (y + z) == (x + y) + z;
    }
  }

  lemma {:induction false} ConcatParts<T>(a: seq<seq<T>>, b: seq<seq<T>>)
    ensures Concat(a + b) == Concat(a) + Concat(b)
  {
    if a == [] {
      assert a + b == b;
    } else {
      assert (a + b)[1..] == a[1..] + b;
      ConcatParts(a[1..], b);
    }
  }

  lemma ConcatOne<T>(part: seq<T>)
    ensures Concat([part]) == part && Concat<T>([]) == []
  {
    assert Concat([part]) == part + Concat([]);
  }

  lemma ConcatLast<T>(parts: seq<seq<T>>)
    requires parts != []
    ensures Concat(parts) == Concat(parts[..|parts| - 1]) + parts[|parts| - 1]
  {
    hide Concat;
    var front, last := parts[..|parts| - 1], parts[|parts| - 1];
    assert parts == front + [last];
    ConcatParts(front, [last]);
    ConcatOne(last);
  }
}
