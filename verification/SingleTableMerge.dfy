/**
  Delete-insert on a root table without nested tables: what becomes of every primary key, and that
  merging the same staged rows again changes nothing.
*/
module SingleTableMerge {
  import opened Options
  import opened SqlModel
  import opened SqlMerge
  import opened RowFacts
  import opened DeleteInsert

  /** A table with a primary key; staged rows have its columns; data declared to be free of
      duplicates is; and where deletion goes by row key, row keys are unique. */
  ghost predicate Keyed(db: Database, root: TableSchema, tempForDelete: bool) {
    && PrimaryKeys(root) != []
    && Shaped(Rows(db, Staging(root.name)), AllColumns(root.columns))
    && (root.deduplicated ==> KeysDiffer(Rows(db, Staging(root.name)), PrimaryKeys(root)))
    && (tempForDelete ==> RowKeyCol(root).Ok? && Unique(Rows(db, Dest(root.name)), RowKeyCol(root).value))
  }

  ghost function UnmatchedIn(rows: seq<Row>, clauses: seq<KeyClause>): Row -> bool {
    (r: Row) => !MatchedBy(r, rows, clauses)
  }

  /** The destination rows that no staged row matches. */
  ghost function Kept(db: Database, root: TableSchema): seq<Row> {
    Filter(Rows(db, Dest(root.name)), UnmatchedIn(Rows(db, Staging(root.name)), Clauses(root)))
  }

  /** The staged rows that are inserted: the winners that are not marked as deleted. */
  ghost function Added(db: Database, root: TableSchema, choose: Chooser): seq<Row> {
    Filter(Candidates(db, root, choose), LiveIn(root))
  }

  // ---------------------------------------------------------------------------------------
  // The result

  lemma DeletesAlone(db: Database, root: TableSchema, tempForDelete: bool, choose: Chooser)
    requires PrimaryKeys(root) != [] || MergeKeys(root) != []
    requires tempForDelete ==> RowKeyCol(root).Ok? && Unique(Rows(db, Dest(root.name)), RowKeyCol(root).value)
    ensures Deletes([root], tempForDelete).Ok?
    ensures
      var d := Deletes([root], tempForDelete).value;
      var db1 := Run(db, d.statements, choose);
      && Rows(db1, Dest(root.name)) == Kept(db, root)
      && (forall t :: t != Dest(root.name) && !t.Temp? ==> Rows(db1, t) == Rows(db, t))
  {
    var matches := MatchedIn(Rows(db, Staging(root.name)), Clauses(root));
    var d := Deletes([root], tempForDelete).value.statements;
    if tempForDelete {
      var rk := RowKeyCol(root).value;
      var create := CreateTemp(DeleteTemp(root), SelectMatched(rk, Dest(root.name), Staging(root.name), Clauses(root)));
      assert NestedDeletes(root, [root][1..], rk) == Ok([]);
      var last := DeleteListed(Dest(root.name), rk, DeleteTemp(root), rk);
      assert d == [create] + [] + [last];
      RunThree(db, create, [], last, choose);
      DeleteListedRuns(Exec(db, create, choose), Dest(root.name), rk, DeleteTemp(root), rk, choose);
      DoomedListed(db, root, rk, choose);
      DoomedAreMatched(db, root, rk);
      FilterSame(Rows(db, Dest(root.name)), (r: Row) => !matches(r),
                 UnmatchedIn(Rows(db, Staging(root.name)), Clauses(root)));
    } else {
      var s := DeleteMatched(Dest(root.name), Staging(root.name), Clauses(root));
      assert d == [] + [s];
      RunAppend(db, [], s, choose);
      FilterSame(Rows(db, Dest(root.name)), (r: Row) => !MatchedBy(r, Rows(db, Staging(root.name)), Clauses(root)),
                 UnmatchedIn(Rows(db, Staging(root.name)), Clauses(root)));
    }
  }

  lemma AddedSelected(db: Database, db1: Database, root: TableSchema, rowKey: Option<Column>, rootKey: Option<Column>,
                      choose: Chooser)
    requires PrimaryKeys(root) != [] && root.parent.None?
             && Shaped(Rows(db, Staging(root.name)), AllColumns(root.columns))
    requires root.deduplicated ==> KeysDiffer(Rows(db, Staging(root.name)), PrimaryKeys(root))
    requires Rows(db1, Staging(root.name)) == Rows(db, Staging(root.name))
    ensures Selected(db1, InsertFor([root], root, rowKey, rootKey).query, choose) == Added(db, root, choose)
  {
    var cond := InsertCond([root], root, rowKey, rootKey);
    var staged, columns := Rows(db, Staging(root.name)), AllColumns(root.columns);
    DedupKeepsWinners(staged, PrimaryKeys(root), DedupSort(root.columns), choose);
    if root.deduplicated {
      DedupOfDistinct(staged, PrimaryKeys(root), DedupSort(root.columns), choose);
    }
    var candidates := Candidates(db, root, choose);
    forall r ensures Holds(db1, cond, r) <==> Live(root, r) {
      if NotDeleted(root).Some? {
        LiveMeans(db1, root, r);
      }
    }
    FilterSame(candidates, (r: Row) => Holds(db1, cond, r), LiveIn(root));
    forall r | r in candidates ensures r in staged {
      assert Wins(r, staged, PrimaryKeys(root), DedupSort(root.columns));
    }
    ProjectFiltered(candidates, (r: Row) => Holds(db1, cond, r), columns);
  }

  /** The merge keeps the unmatched rows and adds the accepted winners. */
  lemma SingleTableResult(db: Database, root: TableSchema, tempForDelete: bool, choose: Chooser)
    requires Keyed(db, root, tempForDelete) && root.parent.None?
    ensures MergeSql([root], tempForDelete).Ok?
    ensures
      var db' := Run(db, MergeSql([root], tempForDelete).value, choose);
      && Rows(db', Dest(root.name)) == Kept(db, root) + Added(db, root, choose)
      && (forall t :: t != Dest(root.name) && !t.Temp? ==> Rows(db', t) == Rows(db, t))
  {
    hide Run, Kept, Added, Selected, Candidates, RowKeyCol;
    DeletesAlone(db, root, tempForDelete, choose);
    var d := Deletes([root], tempForDelete).value;
    var insert := InsertFor([root], root, d.rowKey, d.rootKey);
    assert Inserts([root], 1, d.rowKey, d.rootKey) == [insert];
    var stmts := MergeSql([root], tempForDelete).value;
    assert stmts == d.statements + [insert];
    RunAppend(db, d.statements, insert, choose);
    AddedSelected(db, Run(db, d.statements, choose), root, d.rowKey, d.rootKey, choose);
  }

  /** Without a primary key: the rows that no staged row matches on the merge key, or all rows if there
      is no merge key either, and every staged row that is not marked as deleted. */
  lemma WithoutPrimaryKey(db: Database, root: TableSchema, tempForDelete: bool, choose: Chooser)
    requires PrimaryKeys(root) == [] && root.parent.None?
             && Shaped(Rows(db, Staging(root.name)), AllColumns(root.columns))
    requires tempForDelete && MergeKeys(root) != [] ==>
               RowKeyCol(root).Ok? && Unique(Rows(db, Dest(root.name)), RowKeyCol(root).value)
    ensures MergeSql([root], tempForDelete).Ok?
    ensures
      var db' := Run(db, MergeSql([root], tempForDelete).value, choose);
      && Rows(db', Dest(root.name)) == (if MergeKeys(root) == [] then Rows(db, Dest(root.name)) else Kept(db, root))
                                       + Filter(Rows(db, Staging(root.name)), LiveIn(root))
      && (forall t :: t != Dest(root.name) && !t.Temp? ==> Rows(db', t) == Rows(db, t))
  {
    hide Run, Kept, Selected, RowKeyCol, InsertCond, NotDeleted, PrimaryKeys, MergeKeys, Deletes, AllColumns, Shaped,
         Filter, Unique;
    if MergeKeys(root) != [] {
      DeletesAlone(db, root, tempForDelete, choose);
    } else {
      NothingDeleted(db, root, tempForDelete, choose);
    }
    var d := Deletes([root], tempForDelete).value;
    var insert := InsertFor([root], root, d.rowKey, d.rootKey);
    assert Inserts([root], 1, d.rowKey, d.rootKey) == [insert];
    assert MergeSql([root], tempForDelete).value == d.statements + [insert];
    RunAppend(db, d.statements, insert, choose);
    LiveSelected(db, Run(db, d.statements, choose), root, d.rowKey, d.rootKey, choose);
  }

  lemma NothingDeleted(db: Database, root: TableSchema, tempForDelete: bool, choose: Chooser)
    requires PrimaryKeys(root) == [] && MergeKeys(root) == []
    ensures Deletes([root], tempForDelete) == Ok(DeletePart([], None, None)) && Run(db, [], choose) == db
  {
  }

  lemma LiveSelected(db: Database, db1: Database, root: TableSchema, rowKey: Option<Column>, rootKey: Option<Column>,
                     choose: Chooser)
    requires PrimaryKeys(root) == [] && root.parent.None?
             && Shaped(Rows(db, Staging(root.name)), AllColumns(root.columns))
    requires Rows(db1, Staging(root.name)) == Rows(db, Staging(root.name))
    ensures Selected(db1, InsertFor([root], root, rowKey, rootKey).query, choose)
            == Filter(Rows(db, Staging(root.name)), LiveIn(root))
  {
    var cond := InsertCond([root], root, rowKey, rootKey);
    var staged := Rows(db, Staging(root.name));
    forall r ensures Holds(db1, cond, r) <==> Live(root, r) {
      if NotDeleted(root).Some? {
        LiveMeans(db1, root, r);
      }
    }
    FilterSame(staged, (r: Row) => Holds(db1, cond, r), LiveIn(root));
    ProjectFiltered(staged, (r: Row) => Holds(db1, cond, r), AllColumns(root.columns));
  }

  // ---------------------------------------------------------------------------------------
  // What it means

  lemma StagedRowsMatch(db: Database, root: TableSchema, s: Row, d: Row)
    requires PrimaryKeys(root) != [] && s in Rows(db, Staging(root.name))
    requires KeyOf(d, PrimaryKeys(root)) == KeyOf(s, PrimaryKeys(root))
    ensures MatchedBy(d, Rows(db, Staging(root.name)), Clauses(root))
  {
    KeyMatchMeans(d, s, PrimaryKeys(root));
    assert PrimaryKeys(root) in Clauses(root) && KeyMatch(d, s, PrimaryKeys(root));
    assert Matches(d, s, Clauses(root));
  }

  /** What becomes of every primary key: if it was staged, exactly its winner remains, or nothing at
      all when the winner is marked as deleted; otherwise its old rows remain, less those that a
      staged row matches on the merge key. */
  lemma KeyAfterMerge(db: Database, root: TableSchema, tempForDelete: bool, choose: Chooser, key: seq<Value>)
    requires Keyed(db, root, tempForDelete) && root.parent.None?
    ensures MergeSql([root], tempForDelete).Ok?
    ensures
      var pk, staged := PrimaryKeys(root), Rows(db, Staging(root.name));
      var after := SameKey(Rows(Run(db, MergeSql([root], tempForDelete).value, choose), Dest(root.name)), pk, key);
      if HasWinner(staged, pk, key) then
        exists w :: w in Candidates(db, root, choose) && KeyOf(w, pk) == key
          && Wins(w, staged, pk, DedupSort(root.columns))
                    && after == if Live(root, w) then [w] else []
      else after == Filter(SameKey(Rows(db, Dest(root.name)), pk, key), UnmatchedIn(staged, Clauses(root)))
  {
    hide KeyOf, Run, MergeSql, Unbeaten, Live, MatchedBy, NotDeleted;
    SingleTableResult(db, root, tempForDelete, choose);
    var pk, staged, candidates := PrimaryKeys(root), Rows(db, Staging(root.name)), Candidates(db, root, choose);
    DedupKeepsWinners(staged, pk, DedupSort(root.columns), choose);
    FilterConcat(Kept(db, root), Added(db, root, choose), HasKey(pk, key));
    if HasWinner(staged, pk, key) {
      var s :| s in staged && KeyOf(s, pk) == key;
      var w :| w in candidates && KeyOf(w, pk) == KeyOf(s, pk);
      NoneKept(db, root, s);
      WinnerAddedAlone(candidates, pk, w, LiveIn(root));
      assert w in candidates && Wins(w, staged, pk, DedupSort(root.columns));
    } else {
      FilterNone(Added(db, root, choose), HasKey(pk, key));
      FilterSwap(Rows(db, Dest(root.name)), UnmatchedIn(staged, Clauses(root)), HasKey(pk, key));
    }
  }

  lemma NoneKept(db: Database, root: TableSchema, s: Row)
    requires PrimaryKeys(root) != [] && s in Rows(db, Staging(root.name))
    ensures Filter(Kept(db, root), HasKey(PrimaryKeys(root), KeyOf(s, PrimaryKeys(root)))) == []
  {
    forall d | d in Kept(db, root) ensures KeyOf(d, PrimaryKeys(root)) != KeyOf(s, PrimaryKeys(root)) {
      if KeyOf(d, PrimaryKeys(root)) == KeyOf(s, PrimaryKeys(root)) {
        StagedRowsMatch(db, root, s, d);
      }
    }
    FilterNone(Kept(db, root), HasKey(PrimaryKeys(root), KeyOf(s, PrimaryKeys(root))));
  }

  lemma WinnerAddedAlone(candidates: seq<Row>, pk: seq<Column>, w: Row, live: Row -> bool)
    requires KeysDiffer(candidates, pk) && w in candidates
    ensures Filter(Filter(candidates, live), HasKey(pk, KeyOf(w, pk))) == if live(w) then [w] else []
  {
    hide KeyOf;
    FilterSwap(candidates, live, HasKey(pk, KeyOf(w, pk)));
    OneOfKey(candidates, pk, w);
    FilterHead([w], live);
  }

  lemma FilterSwap<T(!new)>(s: seq<T>, f: T -> bool, g: T -> bool)
    ensures Filter(Filter(s, f), g) == Filter(Filter(s, g), f)
  {
    var both := (x: T) => f(x) && g(x);
    FilterTwice(s, f, g, both);
    FilterTwice(s, g, f, both);
  }

  /** A primary key that was unique in the destination stays unique. */
  lemma PrimaryKeyStaysUnique(db: Database, root: TableSchema, tempForDelete: bool, choose: Chooser)
    requires Keyed(db, root, tempForDelete) && root.parent.None?
    requires KeysDiffer(Rows(db, Dest(root.name)), PrimaryKeys(root))
    ensures MergeSql([root], tempForDelete).Ok?
    ensures KeysDiffer(Rows(Run(db, MergeSql([root], tempForDelete).value, choose), Dest(root.name)), PrimaryKeys(root))
  {
    hide KeyOf, Run, MergeSql, MatchedBy;
    SingleTableResult(db, root, tempForDelete, choose);
    var pk, staged := PrimaryKeys(root), Rows(db, Staging(root.name));
    DedupKeepsWinners(staged, pk, DedupSort(root.columns), choose);
    DifferFiltered(Rows(db, Dest(root.name)), pk, UnmatchedIn(staged, Clauses(root)));
    DifferFiltered(Candidates(db, root, choose), pk, LiveIn(root));
    var kept, added := Kept(db, root), Added(db, root, choose);
    forall d, s | d in kept && s in added ensures KeyOf(d, pk) != KeyOf(s, pk) {
      assert Wins(s, staged, pk, DedupSort(root.columns));
      if KeyOf(d, pk) == KeyOf(s, pk) {
        StagedRowsMatch(db, root, s, d);
      }
    }
    DifferConcat(kept, added, pk);
  }

  // ---------------------------------------------------------------------------------------
  // Merging the same staged rows again

  /** Two different staged rows of one primary key that deduplication may keep, at least one of which
      is inserted if it is kept. */
  ghost predicate Tie(root: TableSchema, staged: seq<Row>, r: Row, s: Row) {
    && r in staged && s in staged && r != s && KeyOf(r, PrimaryKeys(root)) == KeyOf(s, PrimaryKeys(root))
    && Wins(r, staged, PrimaryKeys(root), DedupSort(root.columns))
      && Wins(s, staged, PrimaryKeys(root), DedupSort(root.columns))
    && (Live(root, r) || Live(root, s))
  }

  ghost predicate NoTies(root: TableSchema, staged: seq<Row>) {
    forall r, s :: !Tie(root, staged, r, s)
  }

  /** Merging the same staged rows a second time changes nothing, however the database breaks ties in
      either run, if and only if there are no ties to break. */
  lemma MergeIsIdempotent(db: Database, root: TableSchema, tempForDelete: bool)
    requires Keyed(db, root, tempForDelete) && root.parent.None?
    requires MergeSql([root], tempForDelete).Ok?
    requires tempForDelete ==> forall c ::
               Unique(Rows(Run(db, MergeSql([root], tempForDelete).value, c), Dest(root.name)), RowKeyCol(root).value)
    ensures
      var stmts := MergeSql([root], tempForDelete).value;
      (forall c1, c2 ::
         Rows(Run(Run(db, stmts, c1), stmts, c2), Dest(root.name)) == Rows(Run(db, stmts, c1), Dest(root.name)))
      <==> NoTies(root, Rows(db, Staging(root.name)))
  {
    hide KeyOf, Run, MergeSql, MatchedBy, RowKeyCol, Unbeaten, Tie, Live;
    var stmts, staged := MergeSql([root], tempForDelete).value, Rows(db, Staging(root.name));
    if NoTies(root, staged) {
      forall c1, c2
        ensures Rows(Run(Run(db, stmts, c1), stmts, c2), Dest(root.name)) == Rows(Run(db, stmts, c1), Dest(root.name))
      {
        SingleTableResult(db, root, tempForDelete, c1);
        var db' := Run(db, stmts, c1);
        SingleTableResult(db', root, tempForDelete, c2);
        KeptAgain(db, db', root, c1);
        AddedAlike(staged, root, c1, c2);
      }
    } else {
      var r, s :| Tie(root, staged, r, s);
      SecondRunDiffers(db, root, tempForDelete, r, s);
    }
  }

  /** Row keys that were unique on both sides stay unique exactly when no inserted row has the row key of
      a row that is kept. */
  lemma RowKeysAfterMerge(db: Database, root: TableSchema, tempForDelete: bool, choose: Chooser, rk: Column)
    requires Keyed(db, root, tempForDelete) && root.parent.None?
    requires Unique(Rows(db, Dest(root.name)), rk) && Unique(Rows(db, Staging(root.name)), rk)
    ensures MergeSql([root], tempForDelete).Ok?
    ensures Unique(Rows(Run(db, MergeSql([root], tempForDelete).value, choose), Dest(root.name)), rk)
            <==> Keys(Kept(db, root), rk) !! Keys(Added(db, root, choose), rk)
  {
    hide KeyOf, Run, MergeSql, MatchedBy, Unique, Keys, Dedup, Unbeaten;
    SingleTableResult(db, root, tempForDelete, choose);
    UniqueFiltered(Rows(db, Dest(root.name)), rk, UnmatchedIn(Rows(db, Staging(root.name)), Clauses(root)));
    DedupStaysUnique(Rows(db, Staging(root.name)), PrimaryKeys(root), DedupSort(root.columns), choose, rk);
    UniqueFiltered(Candidates(db, root, choose), rk, LiveIn(root));
    UniqueConcat(Kept(db, root), Added(db, root, choose), rk);
  }

  lemma DedupStaysUnique(rows: seq<Row>, cs: seq<Column>, sort: Option<Sort>, choose: Chooser, c: Column)
    requires Unique(rows, c)
    ensures Unique(Dedup(rows, cs, sort, choose), c)
  {
    hide KeyOf, Dedup, Unbeaten, Get;
    DedupKeepsWinners(rows, cs, sort, choose);
    var winners := Dedup(rows, cs, sort, choose);
    forall i, j | 0 <= i < j < |winners| ensures Get(winners[i], c) != Get(winners[j], c) {
      assert Wins(winners[i], rows, cs, sort) && Wins(winners[j], rows, cs, sort);
      if Get(winners[i], c) == Get(winners[j], c) {
        UniqueRow(rows, c, winners[i], winners[j]);
      }
    }
  }

  /** Breaking a tie one way and then the other changes what is there. */
  lemma SecondRunDiffers(db: Database, root: TableSchema, tempForDelete: bool, r: Row, s: Row)
    requires Keyed(db, root, tempForDelete) && root.parent.None?
    requires MergeSql([root], tempForDelete).Ok?
    requires tempForDelete ==> forall c ::
               Unique(Rows(Run(db, MergeSql([root], tempForDelete).value, c), Dest(root.name)), RowKeyCol(root).value)
    requires Tie(root, Rows(db, Staging(root.name)), r, s)
    ensures
      var stmts := MergeSql([root], tempForDelete).value;
      Rows(Run(Run(db, stmts, Picking(r)), stmts, Picking(s)), Dest(root.name)) != Rows(Run(db, stmts, Picking(r)),
          Dest(root.name))
  {
    hide KeyOf, Run, MergeSql, MatchedBy, RowKeyCol, Unbeaten, Live, Wins, Candidates;
    var stmts, pk := MergeSql([root], tempForDelete).value, PrimaryKeys(root);
    var db' := Run(db, stmts, Picking(r));
    SingleTableResult(db, root, tempForDelete, Picking(r));
    PickedStays(db, root, tempForDelete, r);
    PickedStays(db', root, tempForDelete, s);
  }

  /** The database keeps `r` wherever it may. */
  function Picking(r: Row): Chooser {
    (rows: seq<Row>) => IndexOf(rows, r)
  }

  function IndexOf(rows: seq<Row>, r: Row): (i: nat)
    ensures r in rows ==> i < |rows| && rows[i] == r
  {
    if rows == [] || rows[0] == r then 0 else 1 + IndexOf(rows[1..], r)
  }

  lemma PickedStays(db: Database, root: TableSchema, tempForDelete: bool, r: Row)
    requires Keyed(db, root, tempForDelete) && root.parent.None?
    requires Wins(r, Rows(db, Staging(root.name)), PrimaryKeys(root), DedupSort(root.columns))
    ensures MergeSql([root], tempForDelete).Ok?
    ensures
      var after := Rows(Run(db, MergeSql([root], tempForDelete).value, Picking(r)), Dest(root.name));
      SameKey(after, PrimaryKeys(root), KeyOf(r, PrimaryKeys(root))) == if Live(root, r) then [r] else []
  {
    hide KeyOf, Run, MergeSql, MatchedBy, RowKeyCol, Unbeaten, Live, Dedup, DedupSort, SameKey, KeysDiffer, Clauses,
         UnmatchedIn, PrimaryKeys;
    var pk, staged, candidates := PrimaryKeys(root), Rows(db, Staging(root.name)), Candidates(db, root, Picking(r));
    KeyAfterMerge(db, root, tempForDelete, Picking(r), KeyOf(r, pk));
    assert HasWinner(staged, pk, KeyOf(r, pk));
    PickedWins(staged, pk, DedupSort(root.columns), r);
    DedupKeepsWinners(staged, pk, DedupSort(root.columns), Picking(r));
    forall w | w in candidates && KeyOf(w, pk) == KeyOf(r, pk) ensures w == r {
      OneOfKey(candidates, pk, w);
      OneOfKey(candidates, pk, r);
    }
  }

  lemma PickedWins(rows: seq<Row>, cs: seq<Column>, sort: Option<Sort>, r: Row)
    requires Wins(r, rows, cs, sort)
    ensures r in Dedup(rows, cs, sort, Picking(r))
  {
    hide KeyOf, Unbeaten, Dedup, Winner, Picking;
    DedupHasWinner(rows, cs, sort, Picking(r), r);
    WinnerPicked(SameKey(rows, cs, KeyOf(r, cs)), sort, r);
  }

  lemma WinnerPicked(rows: seq<Row>, sort: Option<Sort>, r: Row)
    requires r in rows && Unbeaten(sort, rows, r)
    ensures Winner(rows, sort, Picking(r)) == r
  {
    hide Unbeaten;
    var first := Filter(rows, (q: Row) => Unbeaten(sort, rows, q));
    assert r in first;
    PositionKept(IndexOf(first, r), |first|);
  }

  lemma PositionKept(i: nat, n: nat)
    requires i < n
    ensures i % n == i
  {
  }

  /** Without ties the same rows are inserted however the database chooses. */
  lemma AddedAlike(staged: seq<Row>, root: TableSchema, c1: Chooser, c2: Chooser)
    requires NoTies(root, staged)
    ensures Filter(Dedup(staged, PrimaryKeys(root), DedupSort(root.columns), c1), LiveIn(root))
            == Filter(Dedup(staged, PrimaryKeys(root), DedupSort(root.columns), c2), LiveIn(root))
  {
    var pk, sort := PrimaryKeys(root), DedupSort(root.columns);
    forall r, s | Wins(r, staged, pk, sort) && Wins(s, staged, pk, sort) && KeyOf(r, pk) == KeyOf(s, pk)
      ensures r == s || (!LiveIn(root)(r) && !LiveIn(root)(s))
    {
      assert !Tie(root, staged, r, s);
    }
    DedupAlike(staged, pk, sort, c1, c2, LiveIn(root));
  }

  function KeyAndValue(): TableSchema {
    var columns := [ColumnSchema("id", {PrimaryKey}, false, None, None), ColumnSchema("v", {}, false, None, None)];
    TableSchema("t", None, columns, false, None)
  }

  /** Two staged rows of one key, and a database that keeps the first in the first run and the second
      in the second: the second run replaces what the first one left. */
  lemma SecondRunReplaces(tempForDelete: bool)
    ensures
      var root := KeyAndValue();
      var r, s: Row := map["id" := Num(1), "v" := Num(1)], map["id" := Num(1), "v" := Num(2)];
      var db := map[Staging("t") := [r, s]];
      MergeSql([root], tempForDelete).Ok?
      && var stmts := MergeSql([root], tempForDelete).value;
         && Rows(Run(db, stmts, Picking(r)), Dest("t")) == [r]
         && Rows(Run(Run(db, stmts, Picking(r)), stmts, Picking(s)), Dest("t")) == [s]
  {
    hide KeyOf, Run, MergeSql, MatchedBy, Dedup, Unbeaten;
    var root := KeyAndValue();
    var r, s: Row := map["id" := Num(1), "v" := Num(1)], map["id" := Num(1), "v" := Num(2)];
    var db := map[Staging("t") := [r, s]];
    TwoRows(root, r, s);
    assert Rows(db, Staging(root.name)) == [r, s];
    SingleTableResult(db, root, tempForDelete, Picking(r));
    OneKeyOnly(db, root, r, s, Picking(r), r);
    var db' := Run(db, MergeSql([root], tempForDelete).value, Picking(r));
    assert Kept(db, root) == [];
    SingleTableResult(db', root, tempForDelete, Picking(s));
    OneKeyOnly(db', root, r, s, Picking(s), s);
  }

  lemma TwoRows(root: TableSchema, r: Row, s: Row)
    requires root == KeyAndValue()
    requires r == map["id" := Num(1), "v" := Num(1)] && s == map["id" := Num(1), "v" := Num(2)]
    ensures PrimaryKeys(root) == ["id"] && KeyOf(r, ["id"]) == KeyOf(s, ["id"]) && DedupSort(root.columns).None?
    ensures NotDeleted(root).None? && Shaped([r, s], AllColumns(root.columns)) && RowKeyCol(root) == Ok("id")
  {
    var cs := root.columns;
    assert ColumnsWith(cs, PrimaryKey) == ["id"] + ColumnsWith(cs[1..], PrimaryKey);
    assert ColumnsWith(cs[1..], PrimaryKey) == [] + ColumnsWith(cs[2..], PrimaryKey) == [];
    forall h | h in {HardDelete, RowKey, UniqueKey} ensures FirstWith(cs, h).None? {
      assert FirstWith(cs, h) == FirstWith(cs[1..], h) == FirstWith(cs[1..][1..], h);
    }
    assert DedupSort(cs) == DedupSort(cs[1..]) == DedupSort(cs[1..][1..]);
    assert AllColumns(cs) == ["id"] + AllColumns(cs[1..]) && AllColumns(cs[1..]) == ["v"] + AllColumns(cs[2..]);
    assert AllColumns(cs) == ["id", "v"];
  }

  /** With two staged rows of one key and nothing else, the one that is picked is all that is left. */
  lemma OneKeyOnly(db: Database, root: TableSchema, r: Row, s: Row, choose: Chooser, w: Row)
    requires PrimaryKeys(root) != [] && DedupSort(root.columns).None? && NotDeleted(root).None?
    requires Rows(db, Staging(root.name)) == [r, s] && KeyOf(r, PrimaryKeys(root)) == KeyOf(s, PrimaryKeys(root))
    requires w in [r, s] && choose == Picking(w)
    requires forall d :: d in Rows(db, Dest(root.name)) ==> KeyOf(d, PrimaryKeys(root)) == KeyOf(r, PrimaryKeys(root))
    ensures Kept(db, root) + Added(db, root, choose) == [w]
  {
    hide KeyOf, MatchedBy, Dedup, Winner;
    var pk := PrimaryKeys(root);
    NothingBeats([r, s], pk, w);
    PickedWins([r, s], pk, None, w);
    DedupKeepsWinners([r, s], pk, None, choose);
    var candidates := Candidates(db, root, choose);
    OneOfKey(candidates, pk, w);
    FilterAll(candidates, HasKey(pk, KeyOf(w, pk)));
    FilterAll(candidates, LiveIn(root));
    forall d | d in Rows(db, Dest(root.name)) ensures MatchedBy(d, Rows(db, Staging(root.name)), Clauses(root)) {
      StagedRowsMatch(db, root, r, d);
    }
    FilterNone(Rows(db, Dest(root.name)), UnmatchedIn(Rows(db, Staging(root.name)), Clauses(root)));
  }

  lemma NothingBeats(rows: seq<Row>, cs: seq<Column>, w: Row)
    requires w in rows
    ensures Wins(w, rows, cs, None)
  {
  }

  lemma KeptAgain(db: Database, db': Database, root: TableSchema, choose: Chooser)
    requires PrimaryKeys(root) != []
    requires Rows(db', Staging(root.name)) == Rows(db, Staging(root.name))
    requires Rows(db', Dest(root.name)) == Kept(db, root) + Added(db, root, choose)
    ensures Kept(db', root) == Kept(db, root) && Added(db', root, choose) == Added(db, root, choose)
  {
    hide KeyOf, MatchedBy;
    var staged, unmatched := Rows(db, Staging(root.name)), UnmatchedIn(Rows(db, Staging(root.name)), Clauses(root));
    FilterConcat(Kept(db, root), Added(db, root, choose), unmatched);
    FilterAll(Kept(db, root), unmatched);
    DedupKeepsWinners(staged, PrimaryKeys(root), DedupSort(root.columns), choose);
    forall s | s in Added(db, root, choose) ensures !unmatched(s) {
      assert Wins(s, staged, PrimaryKeys(root), DedupSort(root.columns));
      StagedRowsMatch(db, root, s, s);
    }
    FilterNone(Added(db, root, choose), unmatched);
  }

  // ---------------------------------------------------------------------------------------
  // Where generation fails, and where it goes wrong

  /** Generation runs into an unset row key exactly when there is no key to merge by, but nested
      tables and a hard-delete column. */
  lemma UnboundRowKeyExactly(chain: seq<TableSchema>, tempForDelete: bool)
    requires chain != []
    ensures MergeSql(chain, tempForDelete) == Err(UnboundRowKey)
            <==> |chain| > 1 && PrimaryKeys(chain[0]) == [] && MergeKeys(chain[0]) == [] && NotDeleted(chain[0]).Some?
  {
    NeverUnbound(chain[0], chain[1..], if RowKeyCol(chain[0]).Ok? then RowKeyCol(chain[0]).value else "");
  }

  lemma {:induction false} NeverUnbound(root: TableSchema, nested: seq<TableSchema>, rowKey: Column)
    ensures NestedDeletes(root, nested, rowKey) != Err(UnboundRowKey)
    decreases nested
  {
    if nested != [] {
      NeverUnbound(root, nested[..|nested| - 1], rowKey);
    }
  }
}
