/**
  What a load of a slowly changing dimension writes, and how the history is read, told from the hints
  of the columns and the values of the rows alone.
*/
module Scd2Meaning {
  import opened Options
  import opened SqlModel
  import opened SqlMerge
  import opened RowFacts
  import opened Hints
  import opened Scd2

  // ---------------------------------------------------------------------------------------
  // Columns

  /** The first column with a hint for what marks active rows. */
  ghost predicate FirstActive(columns: seq<ColumnSchema>, i: int) {
    0 <= i < |columns| && columns[i].active.Some? && forall j :: 0 <= j < i ==> columns[j].active.None?
  }

  /** The columns of a versioned table: when a row becomes valid and when it ceases to be, its hash, and
      the one that says what marks an active row. */
  datatype Places = Places(from: nat, to: nat, hash: nat, marker: nat)

  ghost predicate Located(columns: seq<ColumnSchema>, p: Places) {
    && FirstHinted(columns, p.from, ValidFrom) && FirstHinted(columns, p.to, ValidTo)
    && FirstHinted(columns, p.hash, RowVersion) && FirstActive(columns, p.marker)
  }

  /** The validity columns have names of their own. */
  ghost predicate Apart(columns: seq<ColumnSchema>, p: Places)
    requires Located(columns, p)
  {
    var from, to := columns[p.from].name, columns[p.to].name;
    && from != to && columns[p.hash].name != from && columns[p.hash].name != to
    && forall j :: 0 <= j < |columns| && MergeKey in columns[j].hints ==>
         columns[j].name != from && columns[j].name != to
  }

  ghost predicate IsFact(columns: seq<ColumnSchema>, p: Places, c: Column)
    requires Located(columns, p)
  {
    c != columns[p.from].name && c != columns[p.to].name && exists j :: 0 <= j < |columns| && columns[j].name == c
  }

  lemma {:induction false} ActiveMeans(columns: seq<ColumnSchema>)
    ensures ActiveOf(columns).None? ==> forall j :: 0 <= j < |columns| ==> columns[j].active.None?
    ensures ActiveOf(columns).Some? ==> exists i :: FirstActive(columns, i) && ActiveOf(columns) == columns[i].active
  {
    if columns != [] {
      var tail := columns[1..];
      ActiveMeans(tail);
      assert forall j :: 0 < j < |columns| ==> columns[j] == tail[j - 1];
      if columns[0].active.Some? {
        assert FirstActive(columns, 0);
      } else if ActiveOf(tail).Some? {
        var i :| FirstActive(tail, i) && ActiveOf(tail) == tail[i].active;
        assert FirstActive(columns, i + 1);
      }
    }
  }

  lemma ActiveIs(columns: seq<ColumnSchema>, i: int)
    requires FirstActive(columns, i)
    ensures ActiveOf(columns) == columns[i].active
  {
    hide ActiveOf;
    ActiveMeans(columns);
    var k :| FirstActive(columns, k) && ActiveOf(columns) == columns[k].active;
    assert k == i;
  }

  lemma ValidityIs(t: TableSchema, p: Places)
    requires Located(t.columns, p)
    ensures ValidityOf(t) == Some(Validity(t.columns[p.from].name, t.columns[p.to].name, t.columns[p.hash].name))
    ensures ActiveOf(t.columns) == t.columns[p.marker].active && ActiveOf(t.columns).Some?
  {
    hide FirstWith;
    FirstIs(t.columns, p.from, ValidFrom);
    FirstIs(t.columns, p.to, ValidTo);
    FirstIs(t.columns, p.hash, RowVersion);
    ActiveIs(t.columns, p.marker);
  }

  lemma OthersMean(d: Dimension, p: Places, c: Column)
    requires Located(d.root.columns, p) && ValidityOf(d.root) == Some(d.v)
    ensures c in Others(d) <==> IsFact(d.root.columns, p, c)
  {
    hide AllColumns, ValidityOf;
    ValidityIs(d.root, p);
    OthersExactly(AllColumns(d.root.columns), d.v, c);
    AmongAll(d.root.columns, c);
  }

  // ---------------------------------------------------------------------------------------
  // Merge keys

  /** The texts of the merge key columns of a row, one after the other; NULL has none. */
  ghost function KeyText(columns: seq<ColumnSchema>, r: Row, render: Value -> string): string {
    if columns == [] then ""
    else
      (if MergeKey in columns[0].hints && Get(r, columns[0].name) != Null then render(Get(r, columns[0].name)) else "")
      + KeyText(columns[1..], r, render)
  }

  /** The lookup of merge keys does not tell the rows apart: a single column has the same value, or
      several read alike when they are joined. */
  ghost predicate KeyReadsLike(columns: seq<ColumnSchema>, render: Value -> string, r: Row, s: Row) {
    if exists j :: OnlyHinted(columns, j, MergeKey) then
      forall j :: OnlyHinted(columns, j, MergeKey) ==> Get(r, columns[j].name) == Get(s, columns[j].name)
    else KeyText(columns, r, render) == KeyText(columns, s, render)
  }

  lemma {:induction false} KeyTextIsJoined(columns: seq<ColumnSchema>, r: Row, render: Value -> string)
    ensures KeyText(columns, r, render) == Joined(r, ColumnsWith(columns, MergeKey), render)
  {
    if columns != [] {
      KeyTextIsJoined(columns[1..], r, render);
      var c, rest := columns[0].name, ColumnsWith(columns[1..], MergeKey);
      if MergeKey in columns[0].hints {
        assert ColumnsWith(columns, MergeKey) == [c] + rest;
        assert ([c] + rest)[1..] == rest;
      } else {
        assert ColumnsWith(columns, MergeKey) == [] + rest == rest;
      }
    }
  }

  lemma KeyReadsMeans(d: Dimension, r: Row, s: Row)
    ensures Eval(KeyExpr(d), r) == Eval(KeyExpr(d), s) <==> KeyReadsLike(d.root.columns, d.render, r, s)
  {
    hide ColumnsWith, Joined, KeyText, Get;
    var cs := d.root.columns;
    OneColumn(cs, MergeKey);
    if j :| OnlyHinted(cs, j, MergeKey) {
      OneColumnNamed(cs, j, MergeKey);
      forall k | OnlyHinted(cs, k, MergeKey) ensures k == j {
      }
    } else {
      KeyTextIsJoined(cs, r, d.render);
      KeyTextIsJoined(cs, s, d.render);
    }
  }

  // ---------------------------------------------------------------------------------------
  // A load

  /** An active row whose hash is not staged is retired; with a merge key, only if a staged row has a key
      that reads like its own. */
  ghost predicate Retires(columns: seq<ColumnSchema>, p: Places, render: Value -> string, staged: seq<Row>, r: Row)
    requires Located(columns, p)
  {
    && Get(r, columns[p.to].name) == columns[p.marker].active.value
    && (forall s :: s in staged ==> Get(s, columns[p.hash].name) != Get(r, columns[p.hash].name))
    && (Hinted(columns, MergeKey) ==> exists s :: s in staged && KeyReadsLike(columns, render, s, r))
  }

  /** A staged row is new if no active row has its hash. */
  ghost predicate IsNew(columns: seq<ColumnSchema>, p: Places, before: seq<Row>, s: Row)
    requires Located(columns, p)
  {
    forall r :: r in before && Get(r, columns[p.to].name) == columns[p.marker].active.value ==>
      Get(r, columns[p.hash].name) != Get(s, columns[p.hash].name)
  }

  /** `r` is the staged row, valid from the boundary on and active. */
  ghost predicate IsVersionOf(columns: seq<ColumnSchema>, p: Places, boundary: int, r: Row, s: Row)
    requires Located(columns, p)
  {
    && Get(r, columns[p.from].name) == Num(boundary)
    && Get(r, columns[p.to].name) == columns[p.marker].active.value
    && forall c :: IsFact(columns, p, c) ==> Get(r, c) == Get(s, c)
  }

  /** What a load makes of the root table: retired rows get the boundary as the time they ceased to be
      valid and are otherwise as they were, all other rows are as they were, and a version of every new
      staged row is added. */
  ghost predicate LoadedRoot(columns: seq<ColumnSchema>, p: Places, boundary: int, render: Value -> string,
                             before: seq<Row>, staged: seq<Row>, after: seq<Row>)
    requires Located(columns, p)
  {
    && |before| <= |after|
    && (forall n :: 0 <= n < |before| ==>
          after[n] == if Retires(columns, p, render, staged, before[n])
            then before[n][columns[p.to].name := Num(boundary)] else before[n])
    && exists news: seq<Row> :: AreNew(columns, p, before, staged, news)
         && |after| == |before| + |news|
         && forall n :: 0 <= n < |news| ==> IsVersionOf(columns, p, boundary, after[|before| + n], news[n])
  }

  ghost predicate AreNew(columns: seq<ColumnSchema>, p: Places, before: seq<Row>, staged: seq<Row>, news: seq<Row>)
    requires Located(columns, p)
  {
    forall s :: multiset(news)[s] == if IsNew(columns, p, before, s) then multiset(staged)[s] else 0
  }

  /** What a load makes of a nested table: staged rows whose row key is not there are added. */
  ghost predicate LoadedNested(t: TableSchema, rk: Column, before: seq<Row>, staged: seq<Row>, after: seq<Row>) {
    exists news: seq<Row> ::
      && (forall s :: multiset(news)[s] == if RowKnown(before, rk, s) then 0 else multiset(staged)[s])
      && |after| == |before| + |news| && after[..|before|] == before
      && forall n :: 0 <= n < |news| ==> IsCopy(t.columns, after[|before| + n], news[n])
  }

  ghost predicate RowKnown(before: seq<Row>, rk: Column, s: Row) {
    exists r :: r in before && Get(r, rk) == Get(s, rk)
  }

  /** The rows have the same values in all columns of the table. */
  ghost predicate IsCopy(columns: seq<ColumnSchema>, r: Row, s: Row) {
    forall j :: 0 <= j < |columns| ==> Get(r, columns[j].name) == Get(s, columns[j].name)
  }

  ghost predicate LoadReady(chain: seq<TableSchema>, p: Places) {
    && chain != [] && DistinctNames(chain) && Located(chain[0].columns, p) && Apart(chain[0].columns, p)
    && forall n :: 1 <= n < |chain| ==> HasRowKey(chain[n])
  }

  ghost function TimeOf(root: TableSchema, createdAt: int): int {
    match root.boundary case Some(b) => b case None => createdAt
  }

  function DimensionOf(chain: seq<TableSchema>, p: Places, render: Value -> string): Dimension
    requires chain != [] && p.from < |chain[0].columns| && p.to < |chain[0].columns| && p.hash < |chain[0].columns|
    requires p.marker < |chain[0].columns| && chain[0].columns[p.marker].active.Some?
  {
    var cs := chain[0].columns;
    Dimension(chain[0], chain[1..], Validity(cs[p.from].name, cs[p.to].name, cs[p.hash].name),
              cs[p.marker].active.value, render)
  }

  lemma {:induction false} AddsExist(nested: seq<TableSchema>)
    ensures NestedAdds(nested).Ok? <==> forall t :: t in nested ==> RowKeyCol(t).Ok?
    decreases nested
  {
    hide RowKeyCol;
    if nested != [] {
      var n := |nested| - 1;
      AddsExist(nested[..n]);
      assert forall t :: t in nested <==> t in nested[..n] || t == nested[n];
    }
  }

  lemma IsProper(chain: seq<TableSchema>, p: Places, render: Value -> string)
    requires LoadReady(chain, p)
    ensures Proper(DimensionOf(chain, p, render))
  {
    hide ValidityOf, ActiveOf, NestedAdds, AllColumns, OtherColumns, ColumnsWith, RowKeyCol, IsRowKey;
    var d, cs := DimensionOf(chain, p, render), chain[0].columns;
    ValidityIs(chain[0], p);
    OthersMean(d, p, cs[p.hash].name);
    forall k | k in MergeKeys(d.root) ensures k in Others(d) {
      ColumnsMean(cs, MergeKey, k);
      OthersMean(d, p, k);
    }
    assert [d.root] + d.nested == chain;
    AddsExist(d.nested);
    forall t | t in d.nested ensures RowKeyCol(t).Ok? {
      var n :| 0 <= n < |d.nested| && d.nested[n] == t;
      assert chain[n + 1] == t;
      RowKeyExactly(t);
    }
  }

  lemma LoadSqlIs(chain: seq<TableSchema>, p: Places, createdAt: int, render: Value -> string)
    requires LoadReady(chain, p) && Proper(DimensionOf(chain, p, render))
    ensures
      var d, b := DimensionOf(chain, p, render), Num(TimeOf(chain[0], createdAt));
      NestedAdds(d.nested).Ok?
      && Scd2Sql(chain, createdAt, render)
         == Ok([Retire(d.root, d.v, b, d.active, render), Activate(d.root, d.v, b, d.active)]
               + NestedAdds(d.nested).value)
  {
    hide ValidityOf, ActiveOf, NestedAdds, Retire, Activate;
    ValidityIs(chain[0], p);
  }

  lemma RetiresMeans(d: Dimension, p: Places, staged: seq<Row>, r: Row)
    requires Proper(d) && Located(d.root.columns, p)
    ensures Leaves(d, staged, r) <==> Retires(d.root.columns, p, d.render, staged, r)
  {
    hide ValidityOf, ColumnsWith, KeyExpr, Eval, KeyReadsLike, Others;
    ValidityIs(d.root, p);
    NoColumns(d.root.columns, MergeKey);
    forall s ensures Eval(KeyExpr(d), s) == Eval(KeyExpr(d), r) <==> KeyReadsLike(d.root.columns, d.render, s, r) {
      KeyReadsMeans(d, s, r);
    }
    if s :| s in staged && Get(s, d.v.hash) == Get(r, d.v.hash) {
      assert Get(r, d.v.hash) in Keys(staged, d.v.hash);
    }
  }

  lemma NewMeansByHint(d: Dimension, p: Places, b: int, staged: seq<Row>, rows: seq<Row>, s: Row)
    requires Proper(d) && Located(d.root.columns, p) && Num(b) != d.active && s in staged
    ensures Fresh(d, Retired(d, b, staged, rows))(s) <==> IsNew(d.root.columns, p, rows, s)
  {
    hide ValidityOf, Fresh, Retired, KeyFound, Others;
    ValidityIs(d.root, p);
    FreshExactly(d, b, staged, rows, s);
    forall r | r in rows && Get(r, d.v.to) == d.active && Get(r, d.v.hash) == Get(s, d.v.hash)
      ensures Staying(d, staged)(r)
    {
      assert Get(r, d.v.hash) in Keys(staged, d.v.hash);
    }
  }

  lemma VersionStamped(d: Dimension, p: Places, b: int, s: Row)
    requires Proper(d) && Located(d.root.columns, p)
    ensures IsVersionOf(d.root.columns, p, b, Stamping(d, b)(s), s)
  {
    hide ValidityOf, Stamping, Others;
    ValidityIs(d.root, p);
    StampingGives(d, b, s);
    var r := Stamping(d, b)(s);
    forall c | IsFact(d.root.columns, p, c) ensures Get(r, c) == Get(s, c) {
      OthersMean(d, p, c);
      assert Facts(d, r)[c] == Facts(d, s)[c];
    }
  }

  lemma RootLoaded(d: Dimension, p: Places, b: int, staged: seq<Row>, rows: seq<Row>)
    requires Proper(d) && Located(d.root.columns, p) && Num(b) != d.active
    ensures LoadedRoot(d.root.columns, p, b, d.render, rows, staged, AfterLoad(d, b, staged, rows))
  {
    hide Proper, Leaves, Retires, Fresh, IsNew, Stamping, IsVersionOf, Filter;
    var cs, after := d.root.columns, AfterLoad(d, b, staged, rows);
    ToIs(d, p);
    forall n | 0 <= n < |rows|
      ensures after[n] == if Retires(cs, p, d.render, staged, rows[n])
                then rows[n][cs[p.to].name := Num(b)] else rows[n]
    {
      RetiresMeans(d, p, staged, rows[n]);
    }
    var news := Filter(staged, Fresh(d, Retired(d, b, staged, rows)));
    forall s ensures multiset(news)[s] == if IsNew(cs, p, rows, s) then multiset(staged)[s] else 0 {
      FilterCounts(staged, Fresh(d, Retired(d, b, staged, rows)), s);
      if s in staged {
        NewMeansByHint(d, p, b, staged, rows, s);
      } else {
        assert multiset(staged)[s] == 0;
      }
    }
    forall n | 0 <= n < |news| ensures IsVersionOf(cs, p, b, after[|rows| + n], news[n]) {
      VersionStamped(d, p, b, news[n]);
    }
    assert AreNew(cs, p, rows, staged, news);
  }

  lemma ToIs(d: Dimension, p: Places)
    requires Proper(d) && Located(d.root.columns, p)
    ensures d.v.to == d.root.columns[p.to].name
  {
    hide ValidityOf;
    ValidityIs(d.root, p);
  }

  lemma NestedLoaded(t: TableSchema, rk: Column, rows: seq<Row>, staged: seq<Row>)
    requires IsRowKey(t, rk)
    ensures LoadedNested(t, rk, rows, staged, WithNew(t, rows, staged))
  {
    hide IsRowKey, RowKeyCol, AllColumns, RowKnown, Filter, Get;
    RowKeyExactly(t);
    WithNewIs(t, rows, staged);
    var news := Filter(staged, LacksRowKey(rows, rk));
    forall s ensures multiset(news)[s] == if RowKnown(rows, rk, s) then 0 else multiset(staged)[s] {
      FilterCounts(staged, LacksRowKey(rows, rk), s);
      KnownMeans(rows, rk, s);
    }
    var after := WithNew(t, rows, staged);
    forall n | 0 <= n < |news| ensures IsCopy(t.columns, after[|rows| + n], news[n]) {
      CopyProjected(t.columns, news[n]);
    }
  }

  lemma KnownMeans(rows: seq<Row>, rk: Column, s: Row)
    ensures LacksRowKey(rows, rk)(s) <==> !RowKnown(rows, rk, s)
  {
    hide Get;
  }

  lemma CopyProjected(columns: seq<ColumnSchema>, r: Row)
    ensures IsCopy(columns, Project(r, AllColumns(columns)), r)
  {
    hide AllColumns;
    var copy := Project(r, AllColumns(columns));
    forall j | 0 <= j < |columns| ensures Get(copy, columns[j].name) == Get(r, columns[j].name) {
      AmongAll(columns, columns[j].name);
    }
  }

  /** A load of a versioned table: in the column hinted as valid-to it writes the boundary for the rows that
      it retires and nothing else, and it adds the new staged rows with the boundary in the column
      hinted as valid-from and the marker of active rows in the one hinted as valid-to. */
  lemma LoadByHint(db: Database, chain: seq<TableSchema>, p: Places, createdAt: int, render: Value -> string,
                   choose: Chooser)
    requires LoadReady(chain, p) && Some(Num(TimeOf(chain[0], createdAt))) != chain[0].columns[p.marker].active
    ensures Scd2Sql(chain, createdAt, render).Ok?
    ensures
      var db' := Run(db, Scd2Sql(chain, createdAt, render).value, choose);
      && LoadedRoot(chain[0].columns, p, TimeOf(chain[0], createdAt), render, Rows(db, Dest(chain[0].name)),
                    Rows(db, Staging(chain[0].name)), Rows(db', Dest(chain[0].name)))
      && forall n, rk :: 1 <= n < |chain| && IsRowKey(chain[n], rk) ==>
           LoadedNested(chain[n], rk, Rows(db, Dest(chain[n].name)), Rows(db, Staging(chain[n].name)),
                        Rows(db', Dest(chain[n].name)))
  {
    hide LoadedRoot, LoadedNested, Run, Scd2Sql, AfterLoad, WithNew, Proper, IsRowKey, Apart, NestedAdds, Retire,
         Activate, Rows;
    var d, b := DimensionOf(chain, p, render), TimeOf(chain[0], createdAt);
    IsProper(chain, p, render);
    LoadSqlIs(chain, p, createdAt, render);
    StatementsRun(d, db, b, choose);
    RootLoaded(d, p, b, Rows(db, Staging(chain[0].name)), Rows(db, Dest(chain[0].name)));
    forall n, rk | 1 <= n < |chain| && IsRowKey(chain[n], rk)
      ensures LoadedNested(chain[n], rk, Rows(db, Dest(chain[n].name)), Rows(db, Staging(chain[n].name)),
                           Rows(Run(db, Scd2Sql(chain, createdAt, render).value, choose), Dest(chain[n].name)))
    {
      assert d.nested[n - 1] == chain[n] && chain[n] in d.nested;
      NestedLoaded(chain[n], rk, Rows(db, Dest(chain[n].name)), Rows(db, Staging(chain[n].name)));
    }
  }

  /** Statements for a load are generated if and only if the validity columns, the row hash and the marker of
      active rows are hinted and every nested table has a row key. */
  lemma LoadGenerated(chain: seq<TableSchema>, createdAt: int, render: Value -> string)
    requires chain != []
    ensures Scd2Sql(chain, createdAt, render).Ok? <==>
      && (exists p :: Located(chain[0].columns, p))
      && forall n :: 1 <= n < |chain| ==> HasRowKey(chain[n])
    ensures (forall p :: !Located(chain[0].columns, p)) ==>
      Scd2Sql(chain, createdAt, render) == Err(NoVersionHints(chain[0].name))
  {
    hide FirstWith, ActiveOf, NestedAdds, RowKeyCol, HasRowKey, Retire, Activate, Located;
    var cs := chain[0].columns;
    if p :| Located(cs, p) {
      ValidityIs(chain[0], p);
    } else if ValidityOf(chain[0]).Some? && ActiveOf(cs).Some? {
      PlacesExist(chain[0]);
    }
    NestedKeysExist(chain);
  }

  lemma NestedKeysExist(chain: seq<TableSchema>)
    requires chain != []
    ensures NestedAdds(chain[1..]).Ok? <==> forall n :: 1 <= n < |chain| ==> HasRowKey(chain[n])
  {
    hide HasRowKey, RowKeyCol;
    var nested := chain[1..];
    AddsExist(nested);
    forall n | 1 <= n < |chain| ensures RowKeyCol(chain[n]).Ok? <==> HasRowKey(chain[n]) {
      RowKeyExactly(chain[n]);
    }
    assert forall n :: 1 <= n < |chain| ==> chain[n] == nested[n - 1] && chain[n] in nested;
    forall t | t in nested ensures exists n :: 1 <= n < |chain| && chain[n] == t {
      var n :| 0 <= n < |nested| && nested[n] == t;
      assert chain[n + 1] == t;
    }
  }

  lemma PlacesExist(t: TableSchema)
    requires ValidityOf(t).Some? && ActiveOf(t.columns).Some?
    ensures exists p :: Located(t.columns, p)
  {
    hide FirstWith, ActiveOf;
    FirstMeans(t.columns, ValidFrom);
    FirstMeans(t.columns, ValidTo);
    FirstMeans(t.columns, RowVersion);
    ActiveMeans(t.columns);
    var f :| FirstHinted(t.columns, f, ValidFrom);
    var u :| FirstHinted(t.columns, u, ValidTo);
    var h :| FirstHinted(t.columns, h, RowVersion);
    var m :| FirstActive(t.columns, m);
    assert Located(t.columns, Places(f, u, h, m));
  }

  // ---------------------------------------------------------------------------------------
  // Reading the history

  /** The row is valid at `t`: from the time in the column hinted as valid-from on, and before the time in
      the one hinted as valid-to unless that holds the marker of active rows. */
  ghost predicate ValidAt(columns: seq<ColumnSchema>, p: Places, t: int, r: Row)
    requires Located(columns, p)
  {
    var from, to := Get(r, columns[p.from].name), Get(r, columns[p.to].name);
    from.Num? && from.n <= t && (to == columns[p.marker].active.value || (to.Num? && t < to.n))
  }

  /** `c` is what the row says in all columns but those two. */
  ghost predicate IsFacts(columns: seq<ColumnSchema>, p: Places, c: Row, r: Row)
    requires Located(columns, p)
  {
    forall k :: (k in c <==> IsFact(columns, p, k)) && (k in c ==> c[k] == Get(r, k))
  }

  lemma FactsMean(d: Dimension, p: Places, c: Row, r: Row)
    requires Proper(d) && Located(d.root.columns, p)
    ensures Facts(d, r) == c <==> IsFacts(d.root.columns, p, c, r)
  {
    hide ValidityOf, Others, Get, IsFact;
    var others := Others(d);
    forall k ensures k in others <==> IsFact(d.root.columns, p, k) {
      OthersMean(d, p, k);
    }
    assert forall k :: k in Facts(d, r) <==> k in others;
    if IsFacts(d.root.columns, p, c, r) {
      assert forall k :: k in c <==> k in Facts(d, r);
      assert Facts(d, r) == c;
    }
  }

  /** Reading the table as of a time selects the rows that are valid then, and leaves their validity out. */
  lemma ViewByHint(d: Dimension, p: Places, rows: seq<Row>, t: int, c: Row)
    requires Proper(d) && Located(d.root.columns, p)
    ensures c in View(d, rows, t)
            <==> exists r :: r in rows && ValidAt(d.root.columns, p, t, r) && IsFacts(d.root.columns, p, c, r)
  {
    hide ValidityOf, Others, Get, Facts, IsFacts;
    ValidityIs(d.root, p);
    forall r ensures Facts(d, r) == c <==> IsFacts(d.root.columns, p, c, r) {
      FactsMean(d, p, c, r);
    }
    forall r ensures InForceAt(d, t)(r) <==> ValidAt(d.root.columns, p, t, r) {
    }
  }

  /** What the snapshot in force at `t` is made of: before the last load, what it was; from then on, what that
      load stages and, with a merge key, what it was for the keys that the load does not stage. */
  lemma SnapshotByHint(d: Dimension, p: Places, before: seq<Row>, loads: seq<Load>, t: int, c: Row)
    requires Proper(d) && Located(d.root.columns, p) && loads != []
    ensures
      var cs, earlier, last := d.root.columns, loads[..|loads| - 1], loads[|loads| - 1];
      var staged := Rows(last.staged, Staging(d.root.name));
      var time := match last.hint case Some(b) => b case None => last.createdAt;
      c in Snapshot(d, before, loads, t) <==>
        if t < time then c in Snapshot(d, before, earlier, t)
        else
          || (exists s :: s in staged && IsFacts(cs, p, c, s))
          || (c in Snapshot(d, before, earlier, t) && Hinted(cs, MergeKey)
              && forall s :: s in staged ==> !Agree(cs, MergeKey, s, c))
  {
    hide ValidityOf, Others, Get, Facts, IsFacts, ColumnsWith, KeyOf, Agree, View, Hinted;
    var cs, last := d.root.columns, loads[|loads| - 1];
    var staged := StagedOf(d, last);
    forall s ensures Facts(d, s) == c <==> IsFacts(cs, p, c, s) {
      FactsMean(d, p, c, s);
    }
    forall s ensures KeyOf(s, MergeKeys(d.root)) == KeyOf(c, MergeKeys(d.root)) <==> Agree(cs, MergeKey, s, c) {
      AgreeMeans(cs, MergeKey, s, c);
    }
    NoColumns(cs, MergeKey);
  }

  /** Time travel, told from the hints: if no load mixes keys up, a row of facts is what some row that is valid
      at `t` says if and only if it is in the snapshot in force at `t`. */
  lemma TimeTravelByHint(d: Dimension, p: Places, db: Database, b0: int, loads: seq<Load>, choose: Chooser,
                         meaning: Value -> Row, t: int, c: Row)
    requires Proper(d) && Located(d.root.columns, p) && InOrder(d, b0, loads, meaning)
    requires Timely(d, b0, RootRows(d, db)) && Hashed(d, RootRows(d, db), meaning)
    requires NeverMixedUp(d, AsSet(Present(d, RootRows(d, db))), loads)
    ensures
      (exists r :: r in Rows(LoadAll(d, db, loads, choose), Dest(d.root.name))
                   && ValidAt(d.root.columns, p, t, r) && IsFacts(d.root.columns, p, c, r))
      <==> c in Snapshot(d, Rows(db, Dest(d.root.name)), loads, t)
  {
    hide Proper, Located, InOrder, Timely, Hashed, NeverMixedUp, LoadAll, View, Snapshot, ValidAt, IsFacts, Present;
    TimeTravelExactly(d, db, b0, loads, choose, meaning);
    var after := RootRows(d, LoadAll(d, db, loads, choose));
    assert AsSet(View(d, after, t)) == Snapshot(d, RootRows(d, db), loads, t);
    ViewByHint(d, p, after, t, c);
  }
}
