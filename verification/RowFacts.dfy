/** Facts about rows, keys, filtering and deduplication that all merge strategies use. */
module RowFacts {
  import opened Options
  import opened SqlModel

  // ---------------------------------------------------------------------------------------
  // Filtering

  lemma {:induction false} FilterSame<T(!new)>(s: seq<T>, f: T -> bool, g: T -> bool)
    requires forall x :: x in s ==> f(x) == g(x)
    ensures Filter(s, f) == Filter(s, g)
  {
    if s != [] {
      assert s[0] in s && forall x :: x in s[1..] ==> x in s;
      FilterSame(s[1..], f, g);
    }
  }

  lemma {:induction false} FilterConcat<T(!new)>(s: seq<T>, t: seq<T>, f: T -> bool)
    ensures Filter(s + t, f) == Filter(s, f) + Filter(t, f)
  {
    if s == [] {
      assert s + t == t;
    } else {
      assert (s + t)[1..] == s[1..] + t;
      FilterConcat(s[1..], t, f);
    }
  }

  lemma {:induction false} FilterAll<T(!new)>(s: seq<T>, f: T -> bool)
    requires forall x :: x in s ==> f(x)
    ensures Filter(s, f) == s
  {
    if s != [] {
      assert s[0] in s && forall x :: x in s[1..] ==> x in s;
      FilterAll(s[1..], f);
    }
  }

  lemma {:induction false} FilterNone<T(!new)>(s: seq<T>, f: T -> bool)
    requires forall x :: x in s ==> !f(x)
    ensures Filter(s, f) == []
  {
    if s != [] {
      assert s[0] in s && forall x :: x in s[1..] ==> x in s;
      FilterNone(s[1..], f);
    }
  }

  lemma FilterHead<T(!new)>(s: seq<T>, f: T -> bool)
    requires s != []
    ensures Filter(s, f) == if f(s[0]) then [s[0]] + Filter(s[1..], f) else Filter(s[1..], f)
  {
    assert [] + Filter(s[1..], f) == Filter(s[1..], f);
  }

  lemma {:induction false} FilterTwice<T(!new)>(s: seq<T>, f: T -> bool, g: T -> bool, both: T -> bool)
    requires forall x :: x in s ==> both(x) == (f(x) && g(x))
    ensures Filter(Filter(s, f), g) == Filter(s, both)
  {
    if s != [] {
      assert s[0] in s && forall x :: x in s[1..] ==> x in s;
      FilterTwice(s[1..], f, g, both);
      FilterHead(s, f);
      FilterHead(s, both);
      if f(s[0]) {
        FilterHead([s[0]] + Filter(s[1..], f), g);
        assert ([s[0]] + Filter(s[1..], f))[1..] == Filter(s[1..], f);
      }
    }
  }

  /** Filtering keeps what it keeps as often as it is there. */
  lemma {:induction false} FilterCounts(s: seq<Row>, f: Row -> bool, r: Row)
    ensures multiset(Filter(s, f))[r] == if f(r) then multiset(s)[r] else 0
  {
    if s != [] {
      FilterHead(s, f);
      FilterCounts(s[1..], f, r);
      assert s == [s[0]] + s[1..];
    }
  }

  // ---------------------------------------------------------------------------------------
  // Keys of rows

  function Keys(rows: seq<Row>, c: Column): set<Value> {
    set r | r in rows :: Get(r, c)
  }

  function KeyIn(c: Column, keys: set<Value>): Row -> bool {
    (r: Row) => Get(r, c) in keys
  }

  function KeyNotIn(c: Column, keys: set<Value>): Row -> bool {
    (r: Row) => Get(r, c) !in keys
  }

  ghost function Within(rows: seq<Row>, c: Column, keys: set<Value>): seq<Row> {
    Filter(rows, KeyIn(c, keys))
  }

  ghost function Without(rows: seq<Row>, c: Column, keys: set<Value>): seq<Row> {
    Filter(rows, KeyNotIn(c, keys))
  }

  /** No two rows have the same value in column `c`. */
  ghost predicate Unique(rows: seq<Row>, c: Column) {
    forall i, j :: 0 <= i < j < |rows| ==> Get(rows[i], c) != Get(rows[j], c)
  }

  /** Every row has exactly the given columns. */
  ghost predicate Shaped(rows: seq<Row>, cs: seq<Column>) {
    forall r :: r in rows ==> r.Keys == set c | c in cs
  }

  lemma ProjectWhole(r: Row, cs: seq<Column>)
    requires r.Keys == set c | c in cs
    ensures Project(r, cs) == r
  {
  }

  lemma ProjectAll(rows: seq<Row>, cs: seq<Column>)
    requires Shaped(rows, cs)
    ensures Map(rows, (r: Row) => Project(r, cs)) == rows
  {
    forall i | 0 <= i < |rows| ensures Project(rows[i], cs) == rows[i] {
      assert rows[i] in rows;
      ProjectWhole(rows[i], cs);
    }
  }

  lemma KeysProjected(rows: seq<Row>, cs: seq<Column>, c: Column)
    requires c in cs
    ensures Keys(Map(rows, (r: Row) => Project(r, cs)), c) == Keys(rows, c)
  {
    var projected := Map(rows, (r: Row) => Project(r, cs));
    forall v | v in Keys(rows, c) ensures v in Keys(projected, c) {
      var i :| 0 <= i < |rows| && Get(rows[i], c) == v;
      assert projected[i] in projected && Get(projected[i], c) == v;
    }
    forall v | v in Keys(projected, c) ensures v in Keys(rows, c) {
      var i :| 0 <= i < |projected| && Get(projected[i], c) == v;
      assert rows[i] in rows && Get(rows[i], c) == v;
    }
  }

  /** Listing by a unique column selects just the rows it came from. */
  lemma UniqueSelects(rows: seq<Row>, c: Column, f: Row -> bool)
    requires Unique(rows, c)
    ensures Within(rows, c, Keys(Filter(rows, f), c)) == Filter(rows, f)
    ensures Without(rows, c, Keys(Filter(rows, f), c)) == Filter(rows, (r: Row) => !f(r))
  {
    var keys := Keys(Filter(rows, f), c);
    forall r | r in rows ensures Get(r, c) in keys <==> f(r) {
      if Get(r, c) in keys {
        var s :| s in Filter(rows, f) && Get(s, c) == Get(r, c);
        UniqueRow(rows, c, r, s);
      }
    }
    FilterSame(rows, KeyIn(c, keys), f);
    FilterSame(rows, KeyNotIn(c, keys), (r: Row) => !f(r));
  }

  lemma UniqueRow(rows: seq<Row>, c: Column, r: Row, s: Row)
    requires Unique(rows, c) && r in rows && s in rows && Get(r, c) == Get(s, c)
    ensures r == s
  {
    var i :| 0 <= i < |rows| && rows[i] == r;
    var j :| 0 <= j < |rows| && rows[j] == s;
    assert i < j || j < i || i == j;
  }

  lemma {:induction false} UniqueFiltered(rows: seq<Row>, c: Column, f: Row -> bool)
    requires Unique(rows, c)
    ensures Unique(Filter(rows, f), c)
  {
    if rows != [] {
      UniqueFiltered(rows[1..], c, f);
      FilterHead(rows, f);
      forall s | s in rows[1..] ensures Get(s, c) != Get(rows[0], c) {
        var j :| 0 <= j < |rows[1..]| && rows[1..][j] == s;
        assert rows[j + 1] == s;
      }
    }
  }

  lemma UniqueConcat(a: seq<Row>, b: seq<Row>, c: Column)
    requires Unique(a, c)
    ensures Unique(a + b, c) <==> Unique(b, c) && Keys(a, c) !! Keys(b, c)
  {
    hide Get;
    if Unique(a + b, c) {
      forall i, j | 0 <= i < |a| && 0 <= j < |b| ensures Get(a[i], c) != Get(b[j], c) {
        assert (a + b)[i] == a[i] && (a + b)[|a| + j] == b[j];
      }
      forall i, j | 0 <= i < j < |b| ensures Get(b[i], c) != Get(b[j], c) {
        assert (a + b)[|a| + i] == b[i] && (a + b)[|a| + j] == b[j];
      }
    } else if Unique(b, c) {
      var i, j :| 0 <= i < j < |a + b| && Get((a + b)[i], c) == Get((a + b)[j], c);
      assert i < |a| <= j;
      assert Get(a[i], c) in Keys(a, c) && Get(b[j - |a|], c) in Keys(b, c);
    }
  }

  // ---------------------------------------------------------------------------------------
  // Conditions

  lemma InMeans(db: Database, c: Column, from: Table, k: Column, r: Row)
    ensures Holds(db, In(Col(c), Subquery(Col(k), from, Always)), r) <==> Get(r, c) in Keys(Rows(db, from), k)
  {
  }

  lemma KeyMatchMeans(d: Row, s: Row, cs: seq<Column>)
    ensures KeyMatch(d, s, cs) <==> KeyOf(d, cs) == KeyOf(s, cs)
  {
    if KeyMatch(d, s, cs) {
      forall i | 0 <= i < |cs| ensures KeyOf(d, cs)[i] == KeyOf(s, cs)[i] {
        assert cs[i] in cs;
      }
    } else {
      var c :| c in cs && Get(d, c) != Get(s, c);
      var i :| 0 <= i < |cs| && cs[i] == c;
      assert KeyOf(d, cs)[i] != KeyOf(s, cs)[i];
    }
  }

  // ---------------------------------------------------------------------------------------
  // Deduplication

  ghost function SameKey(rows: seq<Row>, cs: seq<Column>, key: seq<Value>): seq<Row> {
    Filter(rows, HasKey(cs, key))
  }

  /** `w` is a row that ROW_NUMBER = 1 may keep for its key. */
  ghost predicate Wins(w: Row, rows: seq<Row>, cs: seq<Column>, sort: Option<Sort>) {
    w in rows && Unbeaten(sort, SameKey(rows, cs, KeyOf(w, cs)), w)
  }

  ghost predicate KeysDiffer(rows: seq<Row>, cs: seq<Column>) {
    forall i, j :: 0 <= i < j < |rows| ==> KeyOf(rows[i], cs) != KeyOf(rows[j], cs)
  }

  ghost predicate HasWinner(rows: seq<Row>, cs: seq<Column>, key: seq<Value>) {
    exists w :: w in rows && KeyOf(w, cs) == key
  }

  /** Leaving out another key does not change which rows have this one. */
  lemma SameKeyAmongOthers(rows: seq<Row>, cs: seq<Column>, k: seq<Value>, key: seq<Value>)
    requires key != k
    ensures SameKey(Filter(rows, LacksKey(cs, k)), cs, key) == SameKey(rows, cs, key)
  {
    FilterTwice(rows, LacksKey(cs, k), HasKey(cs, key), HasKey(cs, key));
  }

  /** Deduplication keeps exactly one row of every key, one that no row of that key beats. */
  lemma {:induction false} DedupKeepsWinners(rows: seq<Row>, cs: seq<Column>, sort: Option<Sort>, choose: Chooser)
    ensures KeysDiffer(Dedup(rows, cs, sort, choose), cs)
    ensures forall w :: w in Dedup(rows, cs, sort, choose) ==> Wins(w, rows, cs, sort)
    ensures forall r :: r in rows ==> HasWinner(Dedup(rows, cs, sort, choose), cs, KeyOf(r, cs))
    decreases |rows|
  {
    if rows != [] {
      var k := KeyOf(rows[0], cs);
      var others := Filter(rows, LacksKey(cs, k));
      FilterShrinks(rows, LacksKey(cs, k), 0);
      DedupStep(rows, cs, sort, choose);
      DedupKeepsWinners(others, cs, sort, choose);
      WinnersOfAll(rows, cs, sort, Winner(Filter(rows, HasKey(cs, k)), sort, choose), Dedup(others, cs, sort, choose));
    }
  }

  lemma WinnersOfAll(rows: seq<Row>, cs: seq<Column>, sort: Option<Sort>, first: Row, rest: seq<Row>)
    requires rows != []
    requires first in Filter(rows, HasKey(cs, KeyOf(rows[0], cs)))
             && Unbeaten(sort, Filter(rows, HasKey(cs, KeyOf(rows[0], cs))), first)
    requires KeysDiffer(rest, cs)
    requires forall w :: w in rest ==> Wins(w, Filter(rows, LacksKey(cs, KeyOf(rows[0], cs))), cs, sort)
    requires forall r :: r in Filter(rows, LacksKey(cs, KeyOf(rows[0], cs))) ==> HasWinner(rest, cs, KeyOf(r, cs))
    ensures KeysDiffer([first] + rest, cs)
    ensures forall w :: w in [first] + rest ==> Wins(w, rows, cs, sort)
    ensures forall r :: r in rows ==> HasWinner([first] + rest, cs, KeyOf(r, cs))
  {
    hide KeyOf, Unbeaten, Filter, HasWinner, KeysDiffer, SameKey;
    var k := KeyOf(rows[0], cs);
    var others := Filter(rows, LacksKey(cs, k));
    assert forall w :: w in rest ==> Wins(w, others, cs, sort) && w in others && KeyOf(w, cs) != k;
    FirstDiffers(first, rest, cs);
    forall w | w in rest ensures Wins(w, rows, cs, sort) {
      SameKeyAmongOthers(rows, cs, k, KeyOf(w, cs));
    }
    FirstWins(rows, cs, sort, first);
    forall r | r in rows ensures HasWinner([first] + rest, cs, KeyOf(r, cs)) {
      WinnerAdded(first, rest, cs, KeyOf(r, cs));
    }
  }

  lemma FirstDiffers(first: Row, rest: seq<Row>, cs: seq<Column>)
    requires KeysDiffer(rest, cs) && forall w :: w in rest ==> KeyOf(w, cs) != KeyOf(first, cs)
    ensures KeysDiffer([first] + rest, cs)
  {
    hide KeyOf;
  }

  lemma FirstWins(rows: seq<Row>, cs: seq<Column>, sort: Option<Sort>, first: Row)
    requires rows != []
    requires first in Filter(rows, HasKey(cs, KeyOf(rows[0], cs)))
             && Unbeaten(sort, Filter(rows, HasKey(cs, KeyOf(rows[0], cs))), first)
    ensures Wins(first, rows, cs, sort) && KeyOf(first, cs) == KeyOf(rows[0], cs)
  {
    hide KeyOf, Unbeaten;
  }

  lemma WinnerAdded(first: Row, rest: seq<Row>, cs: seq<Column>, key: seq<Value>)
    ensures HasWinner(rest, cs, key) || KeyOf(first, cs) == key ==> HasWinner([first] + rest, cs, key)
  {
    if HasWinner(rest, cs, key) {
      var w :| w in rest && KeyOf(w, cs) == key;
      assert w in [first] + rest;
    } else if KeyOf(first, cs) == key {
      assert first in [first] + rest;
    }
  }

  /** Where keys differ already there is nothing to deduplicate. */
  lemma {:induction false} DedupOfDistinct(rows: seq<Row>, cs: seq<Column>, sort: Option<Sort>, choose: Chooser)
    requires KeysDiffer(rows, cs)
    ensures Dedup(rows, cs, sort, choose) == rows
    decreases |rows|
  {
    if rows != [] {
      var k, tail := KeyOf(rows[0], cs), rows[1..];
      hide KeyOf, Winner, Before, Dedup, Filter;
      OthersDiffer(rows, cs);
      FilterNone(tail, HasKey(cs, k));
      FilterAll(tail, LacksKey(cs, k));
      FilterHead(rows, HasKey(cs, k));
      FilterHead(rows, LacksKey(cs, k));
      DedupStep(rows, cs, sort, choose);
      assert Winner([rows[0]], sort, choose) in [rows[0]];
      DedupOfDistinct(tail, cs, sort, choose);
    }
  }

  lemma OthersDiffer(rows: seq<Row>, cs: seq<Column>)
    requires rows != [] && KeysDiffer(rows, cs)
    ensures forall r :: r in rows[1..] ==> KeyOf(r, cs) != KeyOf(rows[0], cs)
    ensures KeysDiffer(rows[1..], cs)
  {
    hide KeyOf;
    forall r | r in rows[1..] ensures KeyOf(r, cs) != KeyOf(rows[0], cs) {
      var j :| 0 <= j < |rows[1..]| && rows[1..][j] == r;
      assert rows[j + 1] == r;
    }
  }

  lemma DedupStep(rows: seq<Row>, cs: seq<Column>, sort: Option<Sort>, choose: Chooser)
    requires rows != []
    ensures
      var k := KeyOf(rows[0], cs);
      && Filter(rows, HasKey(cs, k)) != []
      && Dedup(rows, cs, sort, choose)
         == [Winner(Filter(rows, HasKey(cs, k)), sort, choose)] + Dedup(Filter(rows, LacksKey(cs, k)), cs, sort, choose)
  {
    assert rows[0] in Filter(rows, HasKey(cs, KeyOf(rows[0], cs)));
  }

  lemma {:induction false} DedupHasWinner(rows: seq<Row>, cs: seq<Column>, sort: Option<Sort>, choose: Chooser, r: Row)
    requires r in rows
    ensures SameKey(rows, cs, KeyOf(r, cs)) != []
    ensures Winner(SameKey(rows, cs, KeyOf(r, cs)), sort, choose) in Dedup(rows, cs, sort, choose)
    decreases |rows|
  {
    hide KeyOf, Winner, Unbeaten, Dedup;
    assert r in SameKey(rows, cs, KeyOf(r, cs));
    var k := KeyOf(rows[0], cs);
    DedupStep(rows, cs, sort, choose);
    if KeyOf(r, cs) != k {
      var others := Filter(rows, LacksKey(cs, k));
      FilterShrinks(rows, LacksKey(cs, k), 0);
      DedupHasWinner(others, cs, sort, choose, r);
      SameKeyAmongOthers(rows, cs, k, KeyOf(r, cs));
    }
  }

  /** Where it makes no difference which winner is kept, deduplication does not depend on the choice. */
  lemma {:induction false} DedupAlike(rows: seq<Row>, cs: seq<Column>, sort: Option<Sort>, c1: Chooser, c2: Chooser,
                                      f: Row -> bool)
    requires forall r, s :: Wins(r, rows, cs, sort) && Wins(s, rows, cs, sort) && KeyOf(r, cs) == KeyOf(s, cs) ==>
               r == s || (!f(r) && !f(s))
    ensures Filter(Dedup(rows, cs, sort, c1), f) == Filter(Dedup(rows, cs, sort, c2), f)
    decreases |rows|
  {
    hide KeyOf, Winner, Unbeaten, Dedup;
    if rows == [] {
      NothingToKeep(cs, sort, c1);
      NothingToKeep(cs, sort, c2);
    } else {
      var k := KeyOf(rows[0], cs);
      var same, others := Filter(rows, HasKey(cs, k)), Filter(rows, LacksKey(cs, k));
      DedupStep(rows, cs, sort, c1);
      DedupStep(rows, cs, sort, c2);
      FilterShrinks(rows, LacksKey(cs, k), 0);
      var w1, w2 := Winner(same, sort, c1), Winner(same, sort, c2);
      FirstWins(rows, cs, sort, w1);
      FirstWins(rows, cs, sort, w2);
      forall r | Wins(r, others, cs, sort) ensures Wins(r, rows, cs, sort) {
        SameKeyAmongOthers(rows, cs, k, KeyOf(r, cs));
      }
      DedupAlike(others, cs, sort, c1, c2, f);
      FilterConcat([w1], Dedup(others, cs, sort, c1), f);
      FilterConcat([w2], Dedup(others, cs, sort, c2), f);
      FilterHead([w1], f);
      FilterHead([w2], f);
    }
  }

  lemma NothingToKeep(cs: seq<Column>, sort: Option<Sort>, choose: Chooser)
    ensures Dedup([], cs, sort, choose) == []
  {
  }

  lemma DifferConcat(a: seq<Row>, b: seq<Row>, cs: seq<Column>)
    requires KeysDiffer(a, cs) && KeysDiffer(b, cs)
    requires forall d, s :: d in a && s in b ==> KeyOf(d, cs) != KeyOf(s, cs)
    ensures KeysDiffer(a + b, cs)
  {
    hide KeyOf;
    forall i, j | 0 <= i < j < |a + b| ensures KeyOf((a + b)[i], cs) != KeyOf((a + b)[j], cs) {
      if i < |a| <= j {
        assert a[i] in a && b[j - |a|] in b;
      }
    }
  }

  lemma {:induction false} DifferFiltered(rows: seq<Row>, cs: seq<Column>, f: Row -> bool)
    requires KeysDiffer(rows, cs)
    ensures KeysDiffer(Filter(rows, f), cs)
  {
    hide KeyOf;
    if rows != [] {
      OthersDiffer(rows, cs);
      DifferFiltered(rows[1..], cs, f);
      FilterHead(rows, f);
      if f(rows[0]) {
        FirstDiffers(rows[0], Filter(rows[1..], f), cs);
      }
    }
  }

  lemma {:induction false} OneOfKey(rows: seq<Row>, cs: seq<Column>, w: Row)
    requires KeysDiffer(rows, cs) && w in rows
    ensures SameKey(rows, cs, KeyOf(w, cs)) == [w]
  {
    hide KeyOf;
    FilterHead(rows, HasKey(cs, KeyOf(w, cs)));
    OthersDiffer(rows, cs);
    if rows[0] == w {
      FilterNone(rows[1..], HasKey(cs, KeyOf(w, cs)));
    } else {
      assert w in rows[1..];
      OneOfKey(rows[1..], cs, w);
    }
  }
}
