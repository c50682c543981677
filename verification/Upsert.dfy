/**
  What the upsert statements do: the root table becomes the destination overridden by staging, and
  the nested rows of staged roots become exactly the staged ones.
*/
module Upsert {
  import opened Options
  import opened SqlModel
  import opened SqlMerge
  import opened RowFacts
  import opened DeleteInsert

  // ---------------------------------------------------------------------------------------
  // What MERGE means

  /** Rows of `rows` that no row of `source` matches. */
  ghost predicate Unmatched(r: Row, source: seq<Row>, on: KeyClause) {
    forall s :: s in source ==> KeyOf(s, on) != KeyOf(r, on)
  }

  ghost predicate Removes(db: Database, deleted: Option<Cond>, s: Row) {
    deleted.Some? && Holds(db, deleted.value, s)
  }

  /** The rows after a MERGE: every source row, unless it matches a row and asks for its deletion,
      and every old row that nothing matches. */
  ghost predicate InMerged(db: Database, r: Row, rows: seq<Row>, source: seq<Row>, on: KeyClause,
                           deleted: Option<Cond>) {
    || (r in source && !(Removes(db, deleted, r) && !Unmatched(r, rows, on)))
    || (r in rows && Unmatched(r, source, on))
  }

  lemma SourceOf(d: Row, source: seq<Row>, on: KeyClause, cs: seq<Column>)
    requires Shaped(source, cs) && d.Keys == set c | c in cs
    ensures MergeSource(d, source, on).None? <==> Unmatched(d, source, on)
    ensures MergeSource(d, source, on).Some? ==>
      var s := MergeSource(d, source, on).value;
      s in source && KeyOf(s, on) == KeyOf(d, on) && d + Project(s, cs) == s
  {
    hide KeyOf;
    forall s | s in source ensures KeyMatch(d, s, on) <==> KeyOf(d, on) == KeyOf(s, on) {
      KeyMatchMeans(d, s, on);
    }
    if MergeSource(d, source, on).Some? {
      var s := MergeSource(d, source, on).value;
      ProjectWhole(s, cs);
      assert d + s == s;
    }
  }

  /** Row by row, what MERGE leaves of the rows that were there. */
  lemma {:induction false} MergedRows(db: Database, rows: seq<Row>, source: seq<Row>, on: KeyClause,
                                      deleted: Option<Cond>, cs: seq<Column>)
    requires Shaped(rows, cs) && Shaped(source, cs) && KeysDiffer(rows, on) && KeysDiffer(source, on)
    ensures
      var m := Merged(db, rows, source, on, deleted, cs);
      && (forall r :: r in m <==>
            || (r in source && !Removes(db, deleted, r) && !Unmatched(r, rows, on))
            || (r in rows && Unmatched(r, source, on)))
      && KeysDiffer(m, on)
  {
    hide KeyOf, Merged, Survivor, Removes, KeysDiffer, Unmatched;
    if rows == [] {
      NoneMerged(db, source, on, deleted, cs);
    } else {
      var d, tail := rows[0], rows[1..];
      assert d in rows && forall r :: r in tail ==> r in rows;
      assert forall r :: r in rows ==> r == d || r in tail;
      OthersDiffer(rows, on);
      MergedRows(db, tail, source, on, deleted, cs);
      MergedHead(db, rows, source, on, deleted, cs);
      SurvivorIs(db, d, source, on, deleted, cs);
      forall r ensures Unmatched(r, rows, on) <==> KeyOf(r, on) != KeyOf(d, on) && Unmatched(r, tail, on) {
        UnmatchedHead(r, rows, on);
      }
      UnmatchedMeans(tail, on);
      DifferConcat(Survivor(db, d, source, on, deleted), Merged(db, tail, source, on, deleted, cs), on);
    }
  }

  lemma NoneMerged(db: Database, source: seq<Row>, on: KeyClause, deleted: Option<Cond>, cs: seq<Column>)
    ensures Merged(db, [], source, on, deleted, cs) == [] && KeysDiffer([], on)
    ensures forall r :: Unmatched(r, [], on)
  {
  }

  lemma UnmatchedHead(r: Row, rows: seq<Row>, on: KeyClause)
    requires rows != []
    ensures Unmatched(r, rows, on) <==> KeyOf(r, on) != KeyOf(rows[0], on) && Unmatched(r, rows[1..], on)
  {
    hide KeyOf;
    assert forall s :: s in rows <==> s == rows[0] || s in rows[1..];
  }

  lemma UnmatchedMeans(rows: seq<Row>, on: KeyClause)
    ensures forall r :: !Unmatched(r, rows, on) ==> exists s :: s in rows && KeyOf(s, on) == KeyOf(r, on)
  {
    hide KeyOf;
  }

  /** What is left of a row: the source row of its key, unless that one removes it, or else itself. */
  lemma SurvivorIs(db: Database, d: Row, source: seq<Row>, on: KeyClause, deleted: Option<Cond>, cs: seq<Column>)
    requires Shaped(source, cs) && d.Keys == (set c | c in cs) && KeysDiffer(source, on)
    ensures
      var survivor := Survivor(db, d, source, on, deleted);
      && (forall r :: r in survivor <==>
            || (r in source && !Removes(db, deleted, r) && KeyOf(r, on) == KeyOf(d, on))
            || (r == d && Unmatched(d, source, on)))
      && (forall r :: r in survivor ==> KeyOf(r, on) == KeyOf(d, on)) && KeysDiffer(survivor, on)
  {
    hide KeyOf, MergeSource, Project, Removes, KeysDiffer;
    SourceOf(d, source, on, cs);
    var survivor := Survivor(db, d, source, on, deleted);
    if MergeSource(d, source, on).Some? {
      var s := MergeSource(d, source, on).value;
      forall r | r in source && KeyOf(r, on) == KeyOf(d, on) ensures r == s {
        SameRow(source, on, r, s);
      }
      OneRowDiffers(s, on);
    }
    OneRowDiffers(d, on);
  }

  lemma OneRowDiffers(r: Row, on: KeyClause)
    ensures KeysDiffer([r], on) && KeysDiffer([], on)
  {
  }

  ghost function Survivor(db: Database, d: Row, source: seq<Row>, on: KeyClause, deleted: Option<Cond>): seq<Row> {
    match MergeSource(d, source, on)
    case None => [d]
    case Some(s) => if Removes(db, deleted, s) then [] else [s]
  }

  lemma MergedHead(db: Database, rows: seq<Row>, source: seq<Row>, on: KeyClause, deleted: Option<Cond>,
                   cs: seq<Column>)
    requires rows != [] && Shaped(rows, cs) && Shaped(source, cs)
    ensures Merged(db, rows, source, on, deleted, cs)
            == Survivor(db, rows[0], source, on, deleted) + Merged(db, rows[1..], source, on, deleted, cs)
  {
    assert rows[0] in rows;
    SourceOf(rows[0], source, on, cs);
  }

  lemma NewMeans(rows: seq<Row>, on: KeyClause, s: Row)
    ensures NewTo(rows, on)(s) <==> Unmatched(s, rows, on)
  {
    hide KeyOf, KeyMatch;
    forall d ensures KeyMatch(d, s, on) <==> KeyOf(d, on) == KeyOf(s, on) {
      KeyMatchMeans(d, s, on);
    }
  }

  lemma MergeResult(db: Database, t: Table, source: Table, on: KeyClause, deleted: Option<Cond>, cs: seq<Column>,
                    choose: Chooser)
    requires Shaped(Rows(db, t), cs) && Shaped(Rows(db, source), cs)
    requires KeysDiffer(Rows(db, t), on) && KeysDiffer(Rows(db, source), on)
    ensures
      var db' := Exec(db, Merge(t, source, on, deleted, cs), choose);
      && db' == db[t := Rows(db', t)]
      && (forall r :: r in Rows(db', t) <==> InMerged(db, r, Rows(db, t), Rows(db, source), on, deleted))
      && KeysDiffer(Rows(db', t), on) && Shaped(Rows(db', t), cs)
  {
    hide KeyOf, KeyMatch, Holds, Merged, NewTo;
    var rows, staged := Rows(db, t), Rows(db, source);
    var merged, added := Merged(db, rows, staged, on, deleted, cs), Filter(staged, NewTo(rows, on));
    forall s ensures NewTo(rows, on)(s) <==> Unmatched(s, rows, on) {
      NewMeans(rows, on, s);
    }
    ProjectFiltered(staged, NewTo(rows, on), cs);
    DifferFiltered(staged, on, NewTo(rows, on));
    MergedRows(db, rows, staged, on, deleted, cs);
    DifferConcat(merged, added, on);
  }

  // ---------------------------------------------------------------------------------------
  // One nested table

  ghost function DeletedIn(root: TableSchema): Row -> bool {
    (r: Row) => Deleted(root).Some? && Holds(map[], Deleted(root).value, r)
  }

  /** Row keys of the staged roots, and of those that are marked as deleted. */
  ghost function StagedRoots(db: Database, root: TableSchema, rk: Column): set<Value> {
    Keys(Rows(db, Staging(root.name)), rk)
  }

  ghost function DeadRoots(db: Database, root: TableSchema, rk: Column): set<Value> {
    Keys(Filter(Rows(db, Staging(root.name)), DeletedIn(root)), rk)
  }

  lemma DeletedMeans(db: Database, root: TableSchema, r: Row)
    requires Deleted(root).Some?
    ensures Holds(db, Deleted(root).value, r) <==> DeletedIn(root)(r)
  {
    RowOnlyMeans(db, map[], Deleted(root).value, r);
  }

  lemma DeadMeans(db: Database, root: TableSchema, rk: Column, g: Column, r: Row)
    requires Deleted(root).Some?
    ensures Holds(db, In(Col(g), Subquery(Col(rk), Staging(root.name), Deleted(root).value)), r)
            <==> Get(r, g) in DeadRoots(db, root, rk)
  {
    var staged := Rows(db, Staging(root.name));
    forall s ensures Holds(db, Deleted(root).value, s) <==> DeletedIn(root)(s) {
      DeletedMeans(db, root, s);
    }
    if Get(r, g) in DeadRoots(db, root, rk) {
      var s :| s in Filter(staged, DeletedIn(root)) && Get(s, rk) == Get(r, g);
      assert s in staged && Holds(db, Deleted(root).value, s);
    }
  }

  /** A nested table whose rows are identified by `nrk` and refer to roots by `g`: a row key that
      both sides have belongs to one root, and staged rows refer to staged roots. */
  ghost predicate NestedReady(db: Database, root: TableSchema, t: TableSchema, rk: Column, nrk: Column, g: Column) {
    var rows, staged := Rows(db, Dest(t.name)), Rows(db, Staging(t.name));
    && Shaped(rows, AllColumns(t.columns)) && Shaped(staged, AllColumns(t.columns))
    && KeysDiffer(rows, [nrk]) && KeysDiffer(staged, [nrk])
    && Refers(staged, g, Rows(db, Staging(root.name)), rk)
    && forall d, s :: d in rows && s in staged && Get(d, nrk) == Get(s, nrk) ==> Get(d, g) == Get(s, g)
  }

  /** `rows` is what the upsert should make of the nested table: the staged rows of live roots, and
      the old rows of roots that were not staged. */
  ghost predicate NestedResult(db: Database, root: TableSchema, t: TableSchema, rk: Column, nrk: Column, g: Column,
                               rows: seq<Row>) {
    && KeysDiffer(rows, [nrk])
    && forall r :: r in rows <==>
         || (r in Rows(db, Staging(t.name)) && Get(r, g) !in DeadRoots(db, root, rk))
         || (r in Rows(db, Dest(t.name)) && Get(r, g) !in StagedRoots(db, root, rk))
  }

  /** After dropping the elements that are gone and merging the staged ones. */
  ghost predicate HalfDone(db: Database, root: TableSchema, t: TableSchema, rk: Column, nrk: Column, g: Column,
                           rows: seq<Row>) {
    && KeysDiffer(rows, [nrk])
    && forall r :: r in rows <==>
         || r in Rows(db, Staging(t.name))
         || (r in Rows(db, Dest(t.name)) && Get(r, g) !in StagedRoots(db, root, rk))
  }

  lemma OneKey(r: Row, s: Row, c: Column)
    ensures KeyOf(r, [c]) == KeyOf(s, [c]) <==> Get(r, c) == Get(s, c)
  {
    KeyMatchMeans(r, s, [c]);
  }

  lemma FirstTwo(db: Database, root: TableSchema, t: TableSchema, rk: Column, nrk: Column, g: Column, choose: Chooser)
    requires NestedReady(db, root, t, rk, nrk, g)
    ensures
      var stmts := NestedUpsert(root, t, rk, nrk, g);
      var db2 := Exec(Exec(db, stmts[0], choose), stmts[1], choose);
      && db2 == db[Dest(t.name) := Rows(db2, Dest(t.name))]
      && HalfDone(db, root, t, rk, nrk, g, Rows(db2, Dest(t.name)))
  {
    hide KeyOf, InMerged, Deleted, AllColumns, Merged, Before;
    var stmts := NestedUpsert(root, t, rk, nrk, g);
    var rows, staged := Rows(db, Dest(t.name)), Rows(db, Staging(t.name));
    var stagedRoots, stagedKeys := StagedRoots(db, root, rk), Keys(staged, nrk);
    var db1 := Exec(db, stmts[0], choose);
    var kept := Rows(db1, Dest(t.name));
    forall r ensures Holds(db, stmts[0].cond, r) <==> Get(r, g) in stagedRoots && Get(r, nrk) !in stagedKeys {
      InMeans(db, g, Staging(root.name), rk, r);
      InMeans(db, nrk, Staging(t.name), nrk, r);
    }
    DifferFiltered(rows, [nrk], (r: Row) => !Holds(db, stmts[0].cond, r));
    assert forall r :: r in kept <==> r in rows && !(Get(r, g) in stagedRoots && Get(r, nrk) !in stagedKeys);
    MergeResult(db1, Dest(t.name), Staging(t.name), [nrk], None, AllColumns(t.columns), choose);
    var merged := Rows(Exec(db1, stmts[1], choose), Dest(t.name));
    forall r ensures r in merged <==> r in staged || (r in rows && Get(r, g) !in stagedRoots) {
      MergedOrStaged(db1, db, root, t, rk, nrk, g, kept, r);
    }
  }

  lemma MergedOrStaged(db1: Database, db: Database, root: TableSchema, t: TableSchema, rk: Column, nrk: Column,
                       g: Column,
                       kept: seq<Row>, r: Row)
    requires NestedReady(db, root, t, rk, nrk, g)
    requires forall d :: d in kept <==> (d in Rows(db, Dest(t.name))
                           && !(Get(d, g) in StagedRoots(db, root, rk)
                                && Get(d, nrk) !in Keys(Rows(db, Staging(t.name)), nrk)))
    ensures InMerged(db1, r, kept, Rows(db, Staging(t.name)), [nrk], None)
            <==> r in Rows(db, Staging(t.name))
                 || (r in Rows(db, Dest(t.name)) && Get(r, g) !in StagedRoots(db, root, rk))
  {
    var rows, staged := Rows(db, Dest(t.name)), Rows(db, Staging(t.name));
    forall s ensures KeyOf(s, [nrk]) == KeyOf(r, [nrk]) <==> Get(s, nrk) == Get(r, nrk) {
      OneKey(s, r, nrk);
    }
    hide KeyOf;
    assert Unmatched(r, staged, [nrk]) <==> Get(r, nrk) !in Keys(staged, nrk);
    if r in rows && Get(r, nrk) in Keys(staged, nrk) {
      var s :| s in staged && Get(s, nrk) == Get(r, nrk);
      assert Get(s, g) in Keys(staged, g);
      assert Get(r, g) in StagedRoots(db, root, rk);
    }
  }

  /** Running the statements for one nested table gives the result it should. */
  lemma NestedBlock(db: Database, root: TableSchema, t: TableSchema, rk: Column, nrk: Column, g: Column,
                    choose: Chooser)
    requires NestedReady(db, root, t, rk, nrk, g)
    ensures
      var db' := Run(db, NestedUpsert(root, t, rk, nrk, g), choose);
      && db' == db[Dest(t.name) := Rows(db', Dest(t.name))]
      && NestedResult(db, root, t, rk, nrk, g, Rows(db', Dest(t.name)))
  {
    var stmts := NestedUpsert(root, t, rk, nrk, g);
    hide NestedReady, HalfDone, NestedResult, KeyOf, Holds;
    FirstTwo(db, root, t, rk, nrk, g, choose);
    var db2 := Exec(Exec(db, stmts[0], choose), stmts[1], choose);
    RunTwo(db, stmts[0], stmts[1], choose);
    if Deleted(root).None? {
      assert stmts == [stmts[0], stmts[1]];
      NoneDead(db, root, t, rk, nrk, g, Rows(db2, Dest(t.name)));
    } else {
      assert stmts == [stmts[0], stmts[1]] + [stmts[2]];
      RunAppend(db, [stmts[0], stmts[1]], stmts[2], choose);
      DeadDropped(db, db2, root, t, rk, nrk, g, choose);
    }
  }

  lemma RunTwo(db: Database, a: Statement, b: Statement, choose: Chooser)
    ensures Run(db, [a, b], choose) == Exec(Exec(db, a, choose), b, choose)
  {
    RunAppend(db, [a], b, choose);
    assert [a] + [b] == [a, b] && [a] == [] + [a];
    RunAppend(db, [], a, choose);
  }

  lemma NoneDead(db: Database, root: TableSchema, t: TableSchema, rk: Column, nrk: Column, g: Column, rows: seq<Row>)
    requires Deleted(root).None? && HalfDone(db, root, t, rk, nrk, g, rows)
    ensures NestedResult(db, root, t, rk, nrk, g, rows)
  {
    hide KeyOf;
    assert Filter(Rows(db, Staging(root.name)), DeletedIn(root)) == [] by {
      FilterNone(Rows(db, Staging(root.name)), DeletedIn(root));
    }
  }

  lemma DeadDropped(db: Database, db2: Database, root: TableSchema, t: TableSchema, rk: Column, nrk: Column, g: Column,
                    choose: Chooser)
    requires Deleted(root).Some? && HalfDone(db, root, t, rk, nrk, g, Rows(db2, Dest(t.name)))
    requires db2 == db[Dest(t.name) := Rows(db2, Dest(t.name))]
    ensures
      var db3 := Exec(db2, NestedUpsert(root, t, rk, nrk, g)[2], choose);
      && db3 == db[Dest(t.name) := Rows(db3, Dest(t.name))]
      && NestedResult(db, root, t, rk, nrk, g, Rows(db3, Dest(t.name)))
  {
    hide HalfDone, NestedResult, Holds, DeadRoots, Deleted;
    var stmt := NestedUpsert(root, t, rk, nrk, g)[2];
    DeadAlike(db, db2, root, t, rk);
    forall r ensures Holds(db2, stmt.cond, r) <==> Get(r, g) in DeadRoots(db, root, rk) {
      DeadMeans(db2, root, rk, g, r);
    }
    LiveRemain(db, root, t, rk, nrk, g, Rows(db2, Dest(t.name)), (r: Row) => !Holds(db2, stmt.cond, r));
  }

  lemma DeadAlike(db: Database, db2: Database, root: TableSchema, t: TableSchema, rk: Column)
    requires db2 == db[Dest(t.name) := Rows(db2, Dest(t.name))]
    ensures DeadRoots(db2, root, rk) == DeadRoots(db, root, rk)
  {
  }

  lemma LiveRemain(db: Database, root: TableSchema, t: TableSchema, rk: Column, nrk: Column, g: Column, rows: seq<Row>,
                   live: Row -> bool)
    requires HalfDone(db, root, t, rk, nrk, g, rows)
    requires forall r :: live(r) <==> Get(r, g) !in DeadRoots(db, root, rk)
    ensures NestedResult(db, root, t, rk, nrk, g, Filter(rows, live))
  {
    hide KeyOf, DeadRoots, StagedRoots;
    DifferFiltered(rows, [nrk], live);
    DeadAreStaged(db, root, rk);
  }

  lemma DeadAreStaged(db: Database, root: TableSchema, rk: Column)
    ensures DeadRoots(db, root, rk) <= StagedRoots(db, root, rk)
  {
    forall v | v in DeadRoots(db, root, rk) ensures v in StagedRoots(db, root, rk) {
      var s :| s in Filter(Rows(db, Staging(root.name)), DeletedIn(root)) && Get(s, rk) == v;
      assert s in Rows(db, Staging(root.name));
    }
  }

  // ---------------------------------------------------------------------------------------
  // The whole chain

  /** A chain that can be upserted: the root by its primary key, which identifies rows on both
      sides, and every nested table by its row key. */
  ghost predicate Ready(db: Database, chain: seq<TableSchema>, rk: Column) {
    && chain != [] && DistinctNames(chain)
    && PrimaryKeys(chain[0]) != []
    && Shaped(Rows(db, Dest(chain[0].name)), AllColumns(chain[0].columns))
    && Shaped(Rows(db, Staging(chain[0].name)), AllColumns(chain[0].columns))
    && KeysDiffer(Rows(db, Dest(chain[0].name)), PrimaryKeys(chain[0]))
    && KeysDiffer(Rows(db, Staging(chain[0].name)), PrimaryKeys(chain[0]))
    && (|chain| > 1 ==> RowKeyCol(chain[0]) == Ok(rk))
    && (forall i :: 1 <= i < |chain| ==> TableReady(db, chain[0], chain[i], rk))
  }

  ghost predicate TableReady(db: Database, root: TableSchema, t: TableSchema, rk: Column) {
    RowKeyCol(t).Ok? && RootKeyCol(root, t).Ok?
      && NestedReady(db, root, t, rk, RowKeyCol(t).value, RootKeyCol(root, t).value)
  }

  ghost predicate TableResult(db: Database, db': Database, root: TableSchema, t: TableSchema, rk: Column) {
    && RowKeyCol(t).Ok? && RootKeyCol(root, t).Ok?
    && NestedResult(db, root, t, rk, RowKeyCol(t).value, RootKeyCol(root, t).value, Rows(db', Dest(t.name)))
  }

  /** The root table afterwards: the destination overridden by staging on the primary key, without
      the rows that a staged row marked as deleted matches. */
  ghost predicate RootResult(db: Database, root: TableSchema, rows: seq<Row>) {
    && KeysDiffer(rows, PrimaryKeys(root))
    && forall r :: r in rows <==>
         InMerged(db, r, Rows(db, Dest(root.name)), Rows(db, Staging(root.name)), PrimaryKeys(root), Deleted(root))
  }

  ghost predicate SameFor(db: Database, db': Database, root: TableSchema, t: TableSchema) {
    && Rows(db', Dest(t.name)) == Rows(db, Dest(t.name))
    && Rows(db', Staging(t.name)) == Rows(db, Staging(t.name))
    && Rows(db', Staging(root.name)) == Rows(db, Staging(root.name))
  }

  lemma ReadyAlike(db: Database, db': Database, root: TableSchema, t: TableSchema, rk: Column)
    requires SameFor(db, db', root, t) && TableReady(db, root, t, rk)
    ensures TableReady(db', root, t, rk)
  {
  }

  lemma ResultAlike(db: Database, db': Database, db'': Database, root: TableSchema, t: TableSchema, rk: Column)
    requires SameFor(db, db', root, t) && TableResult(db', db'', root, t, rk)
    ensures TableResult(db, db'', root, t, rk)
  {
  }

  lemma {:induction false} NestedUpsertsRun(db: Database, root: TableSchema, nested: seq<TableSchema>, rk: Column,
                                            choose: Chooser)
    requires DistinctNames(nested) && forall i :: 0 <= i < |nested| ==> TableReady(db, root, nested[i], rk)
    ensures NestedUpserts(root, nested, rk).Ok?
    ensures
      var db' := Run(db, NestedUpserts(root, nested, rk).value, choose);
      && (forall i :: 0 <= i < |nested| ==> TableResult(db, db', root, nested[i], rk))
      && (forall t :: !IsDest(nested, t) ==> Rows(db', t) == Rows(db, t))
    decreases nested
  {
    hide NestedReady, NestedResult, NestedUpsert, RowKeyCol, RootKeyCol, Exec;
    if nested != [] {
      var n := |nested| - 1;
      var before, last := nested[..n], nested[n];
      NestedUpsertsRun(db, root, before, rk, choose);
      IsDestSplit(nested);
      var nrk, g := RowKeyCol(last).value, RootKeyCol(root, last).value;
      var stmts, block := NestedUpserts(root, before, rk).value, NestedUpsert(root, last, rk, nrk, g);
      var dbn := Run(db, stmts, choose);
      RunConcat(db, stmts, block, choose);
      assert SameFor(db, dbn, root, last);
      ReadyAlike(db, dbn, root, last, rk);
      NestedBlock(dbn, root, last, rk, nrk, g, choose);
      ResultAlike(db, dbn, Run(dbn, block, choose), root, last, rk);
      forall i | 0 <= i < n ensures TableResult(db, Run(dbn, block, choose), root, nested[i], rk) {
        assert before[i] == nested[i] && TableResult(db, dbn, root, before[i], rk);
      }
    }
  }

  /** Upsert refines map override: the root is the destination overridden by staging on the primary
      key with matched hard-deleted keys removed; each nested table has exactly the staged rows of
      the staged roots that live and the old rows of roots that were not staged; nothing else
      changes. */
  lemma UpsertResult(db: Database, chain: seq<TableSchema>, rk: Column, choose: Chooser)
    requires Ready(db, chain, rk)
    ensures UpsertSql(chain).Ok?
    ensures
      var db' := Run(db, UpsertSql(chain).value, choose);
      && RootResult(db, chain[0], Rows(db', Dest(chain[0].name)))
      && (forall i :: 1 <= i < |chain| ==> TableResult(db, db', chain[0], chain[i], rk))
      && (forall t :: !IsDest(chain, t) ==> Rows(db', t) == Rows(db, t))
  {
    hide TableReady, TableResult, RootResult, NestedUpserts, RowKeyCol, Run, SameFor;
    var root, nested := chain[0], chain[1..];
    var db1 := Exec(db, RootUpsert(root), choose);
    RootUpserted(db, chain, rk, choose);
    NestedUpsertsRun(db1, root, nested, rk, choose);
    var stmts := NestedUpserts(root, nested, rk).value;
    var db' := Run(db1, stmts, choose);
    RunConcat(db, [RootUpsert(root)], stmts, choose);
    RunSingle(db, RootUpsert(root), choose);
    OtherTables(chain);
    forall i | 1 <= i < |chain| ensures TableResult(db, db', root, chain[i], rk) {
      assert nested[i - 1] == chain[i];
      ResultAlike(db, db1, db', root, chain[i], rk);
    }
    UpsertSqlParts(chain, rk);
  }

  lemma UpsertSqlParts(chain: seq<TableSchema>, rk: Column)
    requires chain != [] && (|chain| > 1 ==> RowKeyCol(chain[0]) == Ok(rk))
    requires NestedUpserts(chain[0], chain[1..], rk).Ok?
    ensures UpsertSql(chain) == Ok([RootUpsert(chain[0])] + NestedUpserts(chain[0], chain[1..], rk).value)
  {
    if chain[1..] == [] {
      assert [RootUpsert(chain[0])] + [] == [RootUpsert(chain[0])];
    }
  }

  /** The first statement merges the root and leaves the nested tables as they were. */
  lemma RootUpserted(db: Database, chain: seq<TableSchema>, rk: Column, choose: Chooser)
    requires Ready(db, chain, rk)
    ensures
      var db1 := Exec(db, RootUpsert(chain[0]), choose);
      && RootResult(db, chain[0], Rows(db1, Dest(chain[0].name)))
      && (forall t :: t != Dest(chain[0].name) ==> Rows(db1, t) == Rows(db, t))
      && (forall i :: 1 <= i < |chain| ==>
           SameFor(db, db1, chain[0], chain[i]) && TableReady(db1, chain[0], chain[i], rk))
      && DistinctNames(chain[1..])
      && forall i :: 0 <= i < |chain[1..]| ==> TableReady(db1, chain[0], chain[1..][i], rk)
  {
    var root := chain[0];
    hide InMerged, KeyOf, TableReady, Merged;
    MergeResult(db, Dest(root.name), Staging(root.name), PrimaryKeys(root), Deleted(root), AllColumns(root.columns),
                choose);
    var db1 := Exec(db, RootUpsert(root), choose);
    OtherTables(chain);
    forall i | 1 <= i < |chain| ensures SameFor(db, db1, root, chain[i]) && TableReady(db1, root, chain[i], rk) {
      ReadyAlike(db, db1, root, chain[i], rk);
    }
    forall i | 0 <= i < |chain[1..]| ensures TableReady(db1, root, chain[1..][i], rk) {
      assert chain[1..][i] == chain[i + 1];
    }
  }

  lemma RunSingle(db: Database, s: Statement, choose: Chooser)
    ensures Run(db, [s], choose) == Exec(db, s, choose)
  {
    assert [] + [s] == [s];
    RunAppend(db, [], s, choose);
  }

  lemma OtherTables(chain: seq<TableSchema>)
    requires chain != [] && DistinctNames(chain)
    ensures DistinctNames(chain[1..])
    ensures !IsDest(chain[1..], Dest(chain[0].name))
    ensures forall t :: !IsDest(chain, t) ==> !IsDest(chain[1..], t) && t != Dest(chain[0].name)
    ensures forall i :: 1 <= i < |chain| ==> chain[i].name != chain[0].name
  {
    forall t | IsDest(chain[1..], t) ensures IsDest(chain, t) && t != Dest(chain[0].name) {
      var i :| 0 <= i < |chain[1..]| && t == Dest(chain[1..][i].name);
      assert chain[i + 1] == chain[1..][i];
    }
    assert IsDest(chain, Dest(chain[0].name));
  }

  // ---------------------------------------------------------------------------------------
  // What it means per key and per root

  /** What becomes of a primary key: a staged row takes its place, unless the key was there and the
      staged row is marked as deleted, in which case nothing remains. A staged row that is marked
      as deleted but matches nothing is inserted all the same. */
  lemma KeyAfterUpsert(db: Database, root: TableSchema, rows: seq<Row>, s: Row)
    requires RootResult(db, root, rows) && s in Rows(db, Staging(root.name))
    requires KeysDiffer(Rows(db, Staging(root.name)), PrimaryKeys(root))
    ensures
      var pk := PrimaryKeys(root);
      var known := HasWinner(Rows(db, Dest(root.name)), pk, KeyOf(s, pk));
      SameKey(rows, pk, KeyOf(s, pk)) == if known && DeletedIn(root)(s) then [] else [s]
  {
    hide KeyOf;
    var pk, staged := PrimaryKeys(root), Rows(db, Staging(root.name));
    if Deleted(root).Some? {
      DeletedMeans(db, root, s);
    }
    hide Holds;
    if s in rows {
      OneOfKey(rows, pk, s);
    } else {
      forall r | r in rows ensures KeyOf(r, pk) != KeyOf(s, pk) {
        if r in staged && KeyOf(r, pk) == KeyOf(s, pk) {
          SameRow(staged, pk, r, s);
        }
      }
      FilterNone(rows, HasKey(pk, KeyOf(s, pk)));
    }
  }

  lemma SameRow(rows: seq<Row>, cs: seq<Column>, r: Row, s: Row)
    requires KeysDiffer(rows, cs) && r in rows && s in rows && KeyOf(r, cs) == KeyOf(s, cs)
    ensures r == s
  {
    hide KeyOf;
    var i :| 0 <= i < |rows| && rows[i] == r;
    var j :| 0 <= j < |rows| && rows[j] == s;
    assert i < j || j < i || i == j;
  }

  /** A primary key that was not staged keeps its row. */
  lemma OtherKeysAfterUpsert(db: Database, root: TableSchema, rows: seq<Row>, r: Row)
    requires RootResult(db, root, rows)
    requires !HasWinner(Rows(db, Staging(root.name)), PrimaryKeys(root), KeyOf(r, PrimaryKeys(root)))
    ensures r in rows <==> r in Rows(db, Dest(root.name))
  {
    hide KeyOf, Holds;
  }

  /** The nested rows of a root: exactly the staged ones if it was staged and lives, none if it was
      staged and is marked as deleted, the old ones if it was not staged. */
  lemma NestedOfRoot(db: Database, db': Database, root: TableSchema, t: TableSchema, rk: Column, v: Value, r: Row)
    requires TableResult(db, db', root, t, rk) && Get(r, RootKeyCol(root, t).value) == v
    requires TableReady(db, root, t, rk)
    ensures r in Rows(db', Dest(t.name)) <==>
      if v in DeadRoots(db, root, rk) then false
      else if v in StagedRoots(db, root, rk) then r in Rows(db, Staging(t.name))
      else r in Rows(db, Dest(t.name))
  {
    hide KeyOf;
    DeadAreStaged(db, root, rk);
    var g := RootKeyCol(root, t).value;
    if r in Rows(db, Staging(t.name)) {
      assert Get(r, g) in Keys(Rows(db, Staging(t.name)), g);
    }
  }

  // ---------------------------------------------------------------------------------------
  // Referential integrity

  /** An old root that has rows in the nested table and takes a new row key from the staged row of its
      primary key: those rows stay behind. */
  ghost predicate LeavesOrphans(db: Database, root: TableSchema, t: TableSchema, rk: Column, g: Column, d: Row) {
    && d in Rows(db, Dest(root.name)) && Get(d, rk) in Keys(Rows(db, Dest(t.name)), g)
    && HasWinner(Rows(db, Staging(root.name)), PrimaryKeys(root), KeyOf(d, PrimaryKeys(root)))
    && Get(d, rk) !in StagedRoots(db, root, rk)
  }

  lemma TableRefersExactly(db: Database, db': Database, root: TableSchema, t: TableSchema, rk: Column, g: Column)
    requires RootKeyCol(root, t) == Ok(g) && TableReady(db, root, t, rk)
    requires RootResult(db, root, Rows(db', Dest(root.name))) && TableResult(db, db', root, t, rk)
    requires Unique(Rows(db, Dest(root.name)), rk) && Refers(Rows(db, Dest(t.name)), g, Rows(db, Dest(root.name)), rk)
    ensures Refers(Rows(db', Dest(t.name)), g, Rows(db', Dest(root.name)), rk)
            <==> forall d :: !LeavesOrphans(db, root, t, rk, g, d)
  {
    hide KeyOf, Holds, InMerged, DeadRoots;
    var rows, roots := Rows(db', Dest(t.name)), Rows(db', Dest(root.name));
    if d :| LeavesOrphans(db, root, t, rk, g, d) {
      var n :| n in Rows(db, Dest(t.name)) && Get(n, g) == Get(d, rk);
      DeadAreStaged(db, root, rk);
      assert n in rows;
      forall r | r in roots ensures Get(r, rk) != Get(d, rk) {
        MatchedRootGone(db, root, rk, d, r);
      }
      assert Get(d, rk) in Keys(rows, g);
    } else {
      forall n | n in rows ensures Get(n, g) in Keys(roots, rk) {
        if n in Rows(db, Staging(t.name)) && Get(n, g) !in DeadRoots(db, root, rk) {
          assert Get(n, g) in Keys(Rows(db, Staging(t.name)), g);
          LiveRootThere(db, root, rk, Get(n, g), roots);
        } else {
          assert Get(n, g) in Keys(Rows(db, Dest(t.name)), g);
          var d :| d in Rows(db, Dest(root.name)) && Get(d, rk) == Get(n, g);
          assert !LeavesOrphans(db, root, t, rk, g, d);
          UnmatchedRootThere(db, root, d);
          assert d in roots;
        }
      }
    }
  }

  lemma MatchedRootGone(db: Database, root: TableSchema, rk: Column, d: Row, r: Row)
    requires Unique(Rows(db, Dest(root.name)), rk) && d in Rows(db, Dest(root.name))
    requires HasWinner(Rows(db, Staging(root.name)), PrimaryKeys(root), KeyOf(d, PrimaryKeys(root)))
    requires Get(d, rk) !in StagedRoots(db, root, rk)
    requires InMerged(db, r, Rows(db, Dest(root.name)), Rows(db, Staging(root.name)), PrimaryKeys(root), Deleted(root))
    ensures Get(r, rk) != Get(d, rk)
  {
    hide KeyOf, Holds;
    if r in Rows(db, Dest(root.name)) && Get(r, rk) == Get(d, rk) {
      UniqueRow(Rows(db, Dest(root.name)), rk, r, d);
    }
  }

  lemma LiveRootThere(db: Database, root: TableSchema, rk: Column, v: Value, roots: seq<Row>)
    requires v in StagedRoots(db, root, rk) && v !in DeadRoots(db, root, rk) && RootResult(db, root, roots)
    ensures v in Keys(roots, rk)
  {
    hide KeyOf;
    var s :| s in Rows(db, Staging(root.name)) && Get(s, rk) == v;
    assert DeletedIn(root)(s) ==> s in Filter(Rows(db, Staging(root.name)), DeletedIn(root));
    if Deleted(root).Some? {
      DeletedMeans(db, root, s);
    }
    assert s in roots;
  }

  lemma UnmatchedRootThere(db: Database, root: TableSchema, d: Row)
    requires d in Rows(db, Dest(root.name))
    requires !HasWinner(Rows(db, Staging(root.name)), PrimaryKeys(root), KeyOf(d, PrimaryKeys(root)))
    ensures InMerged(db, d, Rows(db, Dest(root.name)), Rows(db, Staging(root.name)), PrimaryKeys(root), Deleted(root))
  {
    hide KeyOf, Holds;
  }

  /** After an upsert the rows of a nested table still refer to rows of the root table, if and only if
      no old root with rows there takes a new row key, that is one that the staged row of its primary
      key brings instead of its old one. */
  lemma ReferencesKeptExactly(db: Database, chain: seq<TableSchema>, rk: Column, choose: Chooser, i: nat, g: Column)
    requires Ready(db, chain, rk) && 1 <= i < |chain| && RootKeyCol(chain[0], chain[i]) == Ok(g)
    requires Unique(Rows(db, Dest(chain[0].name)), rk)
    requires Refers(Rows(db, Dest(chain[i].name)), g, Rows(db, Dest(chain[0].name)), rk)
    ensures UpsertSql(chain).Ok?
    ensures
      var db' := Run(db, UpsertSql(chain).value, choose);
      Refers(Rows(db', Dest(chain[i].name)), g, Rows(db', Dest(chain[0].name)), rk)
      <==> forall d :: !LeavesOrphans(db, chain[0], chain[i], rk, g, d)
  {
    hide TableReady, TableResult, RootResult, RowKeyCol, RootKeyCol, Run, UpsertSql, LeavesOrphans, Refers, Unique;
    UpsertResult(db, chain, rk, choose);
    TableRefersExactly(db, Run(db, UpsertSql(chain).value, choose), chain[0], chain[i], rk, g);
  }
}
