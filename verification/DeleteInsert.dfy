/**
  What the delete-insert statements do to a root table with nested tables: whole trees are
  replaced, and every nested row still belongs to a root row afterwards.
*/
module DeleteInsert {
  import opened Options
  import opened SqlModel
  import opened SqlMerge
  import opened RowFacts

  // ---------------------------------------------------------------------------------------
  // Setting

  /** A chain that is merged by a primary or a merge key, whose root has row key `rk` and whose nested
      tables refer to it, each by a root key of its own. */
  ghost predicate Mergeable(chain: seq<TableSchema>, rk: Column) {
    && |chain| >= 2 && DistinctNames(chain)
    && chain[0].parent.None? && (forall i :: 1 <= i < |chain| ==> chain[i].parent.Some?)
    && (PrimaryKeys(chain[0]) != [] || MergeKeys(chain[0]) != [])
    && RowKeyCol(chain[0]) == Ok(rk)
    && forall i :: 1 <= i < |chain| ==> RootKeyCol(chain[0], chain[i]).Ok?
  }

  /** The column by which the i-th table refers to the root: its row key for the root itself. */
  function OwnKey(chain: seq<TableSchema>, i: nat, rk: Column): Column
    requires i < |chain|
  {
    if i == 0 then rk
    else match RootKeyCol(chain[0], chain[i]) case Ok(c) => c case Err(_) => ""
  }

  /** The root key column that the deletes found last. */
  function LastKey(chain: seq<TableSchema>, rk: Column): Column
    requires chain != []
  {
    OwnKey(chain, |chain| - 1, rk)
  }

  /** Whether the accepted root rows are listed in a temporary table. */
  predicate ListsAccepted(root: TableSchema) {
    PrimaryKeys(root) != [] || NotDeleted(root).Some?
  }

  /** The column by which the insert into the i-th table looks up the root. */
  function InsertKey(chain: seq<TableSchema>, i: nat, rk: Column): Column
    requires i < |chain|
  {
    if i == 0 || !ListsAccepted(chain[0]) then OwnKey(chain, i, rk) else LastKey(chain, rk)
  }

  ghost predicate Refers(nested: seq<Row>, g: Column, root: seq<Row>, rk: Column) {
    Keys(nested, g) <= Keys(root, rk)
  }

  /** Staged rows have the columns of their table; row keys identify root rows on both sides; the
      nested rows of both sides refer to root rows of their own side; data declared to be free of
      duplicates is. */
  ghost predicate Sane(db: Database, chain: seq<TableSchema>, rk: Column) {
    && |chain| >= 1
    && (forall i :: 0 <= i < |chain| ==> Shaped(Rows(db, Staging(chain[i].name)), AllColumns(chain[i].columns)))
    && Unique(Rows(db, Dest(chain[0].name)), rk) && Unique(Rows(db, Staging(chain[0].name)), rk)
    && (forall i :: 1 <= i < |chain| ==>
          && Refers(Rows(db, Dest(chain[i].name)), OwnKey(chain, i, rk), Rows(db, Dest(chain[0].name)), rk)
          && Refers(Rows(db, Staging(chain[i].name)), OwnKey(chain, i, rk), Rows(db, Staging(chain[0].name)), rk))
    && (chain[0].deduplicated ==> KeysDiffer(Rows(db, Staging(chain[0].name)), PrimaryKeys(chain[0])))
  }

  // ---------------------------------------------------------------------------------------
  // Reference definition of the result

  function Clauses(root: TableSchema): seq<KeyClause> {
    KeyClauses(PrimaryKeys(root), MergeKeys(root))
  }

  ghost function MatchedIn(rows: seq<Row>, clauses: seq<KeyClause>): Row -> bool {
    (r: Row) => MatchedBy(r, rows, clauses)
  }

  /** Row keys of the destination rows that a staged row matches on the primary or the merge key. */
  ghost function Doomed(db: Database, root: TableSchema, rk: Column): set<Value> {
    Keys(Filter(Rows(db, Dest(root.name)), MatchedIn(Rows(db, Staging(root.name)), Clauses(root))), rk)
  }

  /** Whether a staged row is not marked as deleted. The condition reads nothing but the row. */
  ghost predicate Live(root: TableSchema, r: Row) {
    NotDeleted(root).None? || Holds(map[], NotDeleted(root).value, r)
  }

  ghost function LiveIn(root: TableSchema): Row -> bool {
    (r: Row) => Live(root, r)
  }

  /** The staged root rows that count: one per primary key, if there is one. */
  ghost function Candidates(db: Database, root: TableSchema, choose: Chooser): seq<Row> {
    if PrimaryKeys(root) == [] then Rows(db, Staging(root.name))
    else Dedup(Rows(db, Staging(root.name)), PrimaryKeys(root), DedupSort(root.columns), choose)
  }

  /** Row keys of those that are inserted: the candidates that are not marked as deleted. */
  ghost function Accepted(db: Database, root: TableSchema, rk: Column, choose: Chooser): set<Value> {
    Keys(Filter(Candidates(db, root, choose), LiveIn(root)), rk)
  }

  // ---------------------------------------------------------------------------------------
  // The deletes

  ghost predicate IsDest(tables: seq<TableSchema>, t: Table) {
    exists i :: 0 <= i < |tables| && t == Dest(tables[i].name)
  }

  lemma DeleteListedRuns(db: Database, table: Table, column: Column, temp: Table, tempColumn: Column, choose: Chooser)
    ensures Exec(db, DeleteListed(table, column, temp, tempColumn), choose)
            == db[table := Without(Rows(db, table), column, Keys(Rows(db, temp), tempColumn))]
  {
    var c := In(Col(column), Subquery(Col(tempColumn), temp, Always));
    var keys := Keys(Rows(db, temp), tempColumn);
    forall r | r in Rows(db, table) ensures !Holds(db, c, r) <==> Get(r, column) !in keys {
      InMeans(db, column, temp, tempColumn, r);
    }
    FilterSame(Rows(db, table), (r: Row) => !Holds(db, c, r), KeyNotIn(column, keys));
  }

  /** `db'` is `db` where the first `upTo` nested tables of the chain lost the rows with these root keys. */
  ghost predicate NestedCleared(db: Database, db': Database, chain: seq<TableSchema>, upTo: nat, rk: Column,
                                keys: set<Value>) {
    && 1 <= upTo <= |chain|
    && (forall i :: 1 <= i < upTo ==>
          Rows(db', Dest(chain[i].name)) == Without(Rows(db, Dest(chain[i].name)), OwnKey(chain, i, rk), keys))
    && (forall t :: !IsDest(chain[1..upTo], t) ==> Rows(db', t) == Rows(db, t))
  }

  lemma {:induction false} NestedDeletesRun(db: Database, chain: seq<TableSchema>, upTo: nat, rk: Column,
                                            choose: Chooser)
    requires 1 <= upTo <= |chain| && DistinctNames(chain)
    requires forall i :: 1 <= i < |chain| ==> RootKeyCol(chain[0], chain[i]).Ok?
    ensures NestedDeletes(chain[0], chain[1..upTo], rk).Ok?
    ensures NestedCleared(db, Run(db, NestedDeletes(chain[0], chain[1..upTo], rk).value, choose), chain, upTo, rk,
                          Keys(Rows(db, DeleteTemp(chain[0])), rk))
    decreases upTo
  {
    hide RootKeyCol, Without, Keys, IsDest, Exec;
    var root, nested := chain[0], chain[1..upTo];
    if upTo > 1 {
      var n := upTo - 1;
      NestedDeletesRun(db, chain, n, rk, choose);
      assert nested[..|nested| - 1] == chain[1..n] && nested[|nested| - 1] == chain[n];
      var stmts, own := NestedDeletes(root, chain[1..n], rk).value, OwnKey(chain, n, rk);
      var stmt := DeleteListed(Dest(chain[n].name), own, DeleteTemp(root), rk);
      assert NestedDeletes(root, nested, rk) == Ok(stmts + [stmt]);
      RunAppend(db, stmts, stmt, choose);
      var dbn := Run(db, stmts, choose);
      NotADest(chain[1..n], root);
      DeleteListedRuns(dbn, Dest(chain[n].name), own, DeleteTemp(root), rk, choose);
      OneMoreCleared(db, dbn, chain, n, rk, Keys(Rows(db, DeleteTemp(root)), rk));
    }
  }

  lemma NotADest(tables: seq<TableSchema>, root: TableSchema)
    ensures !IsDest(tables, DeleteTemp(root)) && !IsDest(tables, InsertTemp(root))
  {
  }

  lemma OneMoreCleared(db: Database, dbn: Database, chain: seq<TableSchema>, n: nat, rk: Column, keys: set<Value>)
    requires DistinctNames(chain) && n < |chain| && NestedCleared(db, dbn, chain, n, rk, keys)
    ensures NestedCleared(db, dbn[Dest(chain[n].name) := Without(Rows(dbn, Dest(chain[n].name)), OwnKey(chain, n, rk),
                                                                 keys)],
                          chain, n + 1, rk, keys)
  {
    hide Without, IsDest, OwnKey;
    var nested := chain[1..n + 1];
    assert nested[..|nested| - 1] == chain[1..n] && nested[|nested| - 1] == chain[n];
    IsDestSplit(nested);
  }

  lemma IsDestSplit(tables: seq<TableSchema>)
    requires tables != [] && DistinctNames(tables)
    ensures
      var n := |tables| - 1;
      && !IsDest(tables[..n], Dest(tables[n].name))
      && forall t :: IsDest(tables, t) <==> IsDest(tables[..n], t) || t == Dest(tables[n].name)
  {
    var n := |tables| - 1;
    forall t | IsDest(tables[..n], t) ensures IsDest(tables, t) {
      var i :| 0 <= i < n && t == Dest(tables[..n][i].name);
      assert t == Dest(tables[i].name);
    }
    forall t | IsDest(tables, t) && t != Dest(tables[n].name) ensures IsDest(tables[..n], t) {
      var i :| 0 <= i < |tables| && t == Dest(tables[i].name);
      assert t == Dest(tables[..n][i].name);
    }
  }

  /** The state after the deletes: in every table of the chain the doomed trees are gone, and
      staging is untouched. */
  ghost predicate Cleared(db: Database, db': Database, chain: seq<TableSchema>, rk: Column)
    requires chain != []
  {
    && (forall i :: 0 <= i < |chain| ==>
          Rows(db', Dest(chain[i].name))
          == Without(Rows(db, Dest(chain[i].name)), OwnKey(chain, i, rk), Doomed(db, chain[0], rk)))
    && (forall t :: !IsDest(chain, t) && !t.Temp? ==> Rows(db', t) == Rows(db, t))
  }

  lemma DeletesRun(db: Database, chain: seq<TableSchema>, tempForDelete: bool, rk: Column, choose: Chooser)
    requires Mergeable(chain, rk)
    ensures Deletes(chain, tempForDelete).Ok?
    ensures Deletes(chain, tempForDelete).value.rowKey == Some(rk)
    ensures Deletes(chain, tempForDelete).value.rootKey == Some(LastKey(chain, rk))
    ensures Cleared(db, Run(db, Deletes(chain, tempForDelete).value.statements, choose), chain, rk)
  {
    hide Run, Exec, Doomed, Cleared, NestedCleared, NestedDeletes, RootKeyCol, RowKeyCol;
    var root, nested := chain[0], chain[1..];
    var create := CreateTemp(DeleteTemp(root), SelectMatched(rk, Dest(root.name), Staging(root.name), Clauses(root)));
    var final := DeleteListed(Dest(root.name), rk, DeleteTemp(root), rk);
    var db1 := Exec(db, create, choose);
    assert chain[1..|chain|] == nested;
    NestedDeletesRun(db1, chain, |chain|, rk, choose);
    var stmts := NestedDeletes(root, nested, rk).value;
    var db2 := Run(db1, stmts, choose);
    DeleteListedRuns(db2, Dest(root.name), rk, DeleteTemp(root), rk, choose);
    RunThree(db, create, stmts, final, choose);
    DoomedListed(db, root, rk, choose);
    TempCreated(db, create, choose);
    ClearedByParts(db, db1, db2, chain, rk);
    LastFound(chain, rk);
  }

  lemma TempCreated(db: Database, create: Statement, choose: Chooser)
    requires create.CreateTemp?
    ensures var db1 := Exec(db, create, choose); db1 == db[create.temp := Rows(db1, create.temp)]
  {
  }

  lemma LastFound(chain: seq<TableSchema>, rk: Column)
    requires Mergeable(chain, rk)
    ensures LastRootKey(chain[0], chain[1..]) == Some(LastKey(chain, rk))
  {
    var nested := chain[1..];
    assert nested[|nested| - 1] == chain[|chain| - 1];
  }

  lemma RunThree(db: Database, first: Statement, middle: seq<Statement>, last: Statement, choose: Chooser)
    ensures Run(db, [first] + middle + [last], choose) == Exec(Run(Exec(db, first, choose), middle, choose), last,
                                                               choose)
  {
    RunAppend(db, [first] + middle, last, choose);
    assert ([first] + middle)[1..] == middle;
  }

  lemma DoomedListed(db: Database, root: TableSchema, rk: Column, choose: Chooser)
    ensures
      var create := CreateTemp(DeleteTemp(root), SelectMatched(rk, Dest(root.name), Staging(root.name), Clauses(root)));
      Keys(Rows(Exec(db, create, choose), DeleteTemp(root)), rk) == Doomed(db, root, rk)
  {
    var matched := Filter(Rows(db, Dest(root.name)), MatchedIn(Rows(db, Staging(root.name)), Clauses(root)));
    KeysProjected(matched, [rk], rk);
    FilterSame(Rows(db, Dest(root.name)), MatchedIn(Rows(db, Staging(root.name)), Clauses(root)),
               (r: Row) => MatchedBy(r, Rows(db, Staging(root.name)), Clauses(root)));
  }

  lemma ClearedByParts(db: Database, db1: Database, db2: Database, chain: seq<TableSchema>, rk: Column)
    requires |chain| >= 2 && DistinctNames(chain)
    requires db1 == db[DeleteTemp(chain[0]) := Rows(db1, DeleteTemp(chain[0]))]
    requires Keys(Rows(db1, DeleteTemp(chain[0])), rk) == Doomed(db, chain[0], rk)
    requires NestedCleared(db1, db2, chain, |chain|, rk, Doomed(db, chain[0], rk))
    ensures Rows(db2, DeleteTemp(chain[0])) == Rows(db1, DeleteTemp(chain[0]))
    ensures Cleared(db, db2[Dest(chain[0].name) := Without(Rows(db2, Dest(chain[0].name)), rk,
                                                           Doomed(db, chain[0], rk))],
                    chain, rk)
  {
    hide Doomed, Without, Keys, OwnKey, IsDest;
    assert chain[1..|chain|] == chain[1..];
    RootIsOwn(chain, rk);
    DestOfRest(chain);
    NotADest(chain[1..], chain[0]);
  }

  lemma DestOfRest(chain: seq<TableSchema>)
    requires chain != [] && DistinctNames(chain)
    ensures !IsDest(chain[1..], Dest(chain[0].name)) && IsDest(chain, Dest(chain[0].name))
    ensures forall t :: IsDest(chain[1..], t) ==> IsDest(chain, t)
  {
    var nested := chain[1..];
    forall t | IsDest(nested, t) ensures IsDest(chain, t) && t != Dest(chain[0].name) {
      var i :| 0 <= i < |nested| && t == Dest(nested[i].name);
      assert chain[i + 1] == nested[i];
    }
  }

  // ---------------------------------------------------------------------------------------
  // The inserts

  ghost predicate SameStaging(db: Database, db': Database) {
    forall name :: Rows(db', Staging(name)) == Rows(db, Staging(name))
  }

  lemma LiveMeans(db: Database, root: TableSchema, r: Row)
    requires NotDeleted(root).Some?
    ensures Holds(db, NotDeleted(root).value, r) <==> Live(root, r)
  {
    RowOnlyMeans(db, map[], NotDeleted(root).value, r);
  }

  predicate RowOnly(c: Cond) {
    match c
    case Or(p, q) => RowOnly(p) && RowOnly(q)
    case And(p, q) => RowOnly(p) && RowOnly(q)
    case Not(p) => RowOnly(p)
    case In(_, _) => false
    case _ => true
  }

  lemma {:induction c} RowOnlyMeans(db: Database, db': Database, c: Cond, r: Row)
    requires RowOnly(c)
    ensures Holds(db, c, r) <==> Holds(db', c, r)
  {
  }

  lemma ProjectFiltered(rows: seq<Row>, f: Row -> bool, cs: seq<Column>)
    requires Shaped(rows, cs)
    ensures Map(Filter(rows, f), (r: Row) => Project(r, cs)) == Filter(rows, f)
  {
    ProjectAll(Filter(rows, f), cs);
  }

  /** The temporary table lists the accepted root rows. */
  lemma TempsRun(db: Database, db1: Database, chain: seq<TableSchema>, rk: Column, choose: Chooser)
    requires Mergeable(chain, rk) && Sane(db, chain, rk) && SameStaging(db, db1)
    ensures InsertTemps(chain, Some(rk)).Ok?
    ensures
      var root, db2 := chain[0], Run(db1, InsertTemps(chain, Some(rk)).value, choose);
      && (forall t :: t != InsertTemp(root) ==> Rows(db2, t) == Rows(db1, t))
      && Listed(db, db2, root, rk, choose)
  {
    hide Dedup, Before, OwnKey, RowKeyCol, RootKeyCol, KeysDiffer, Unbeaten, KeyOf, NotDeleted, Refers, Unique, Shaped,
         PrimaryKeys, MergeKeys, AllColumns;
    var root := chain[0];
    var temps := InsertTemps(chain, Some(rk)).value;
    if temps != [] {
      var query := temps[0].query;
      assert Run(db1, temps, choose) == Run(Exec(db1, temps[0], choose), temps[1..], choose);
      var cond := if NotDeleted(root).Some? then NotDeleted(root).value else Always;
      var staged := Rows(db, Staging(root.name));
      if PrimaryKeys(root) != [] && root.deduplicated {
        DedupOfDistinct(staged, PrimaryKeys(root), DedupSort(root.columns), choose);
      }
      var candidates := Candidates(db, root, choose);
      var selected := Filter(candidates, (r: Row) => Holds(db1, cond, r));
      assert Selected(db1, query, choose) == Map(selected, (r: Row) => Project(r, [rk]));
      forall r ensures Holds(db1, cond, r) <==> Live(root, r) {
        if NotDeleted(root).Some? {
          LiveMeans(db1, root, r);
        }
      }
      FilterSame(candidates, (r: Row) => Holds(db1, cond, r), LiveIn(root));
      KeysProjected(selected, [rk], rk);
    }
  }

  /** The staged rows of the i-th table that its insert takes for those of accepted root rows. */
  ghost function Incoming(db: Database, chain: seq<TableSchema>, i: nat, rk: Column, choose: Chooser): seq<Row>
    requires i < |chain|
  {
    Within(Rows(db, Staging(chain[i].name)), InsertKey(chain, i, rk), Accepted(db, chain[0], rk, choose))
  }

  /** Each insert takes from staging the rows that its lookup column ties to an accepted root row, in
      every combination of primary key and hard-delete column. */
  lemma IncomingSelected(db: Database, dbi: Database, chain: seq<TableSchema>, i: nat, rk: Column, choose: Chooser)
    requires Mergeable(chain, rk) && Sane(db, chain, rk) && SameStaging(db, dbi) && i < |chain|
    requires Listed(db, dbi, chain[0], rk, choose)
    ensures Selected(dbi, InsertFor(chain, chain[i], Some(rk), Some(LastKey(chain, rk))).query, choose)
            == Incoming(db, chain, i, rk, choose)
  {
    var root, t, c := chain[0], chain[i], InsertKey(chain, i, rk);
    var columns, staged := AllColumns(t.columns), Rows(db, Staging(t.name));
    var cond := InsertCond(chain, t, Some(rk), Some(LastKey(chain, rk)));
    var accepted := Accepted(db, root, rk, choose);
    assert InsertFor(chain, t, Some(rk), Some(LastKey(chain, rk))).query == SelectRows(columns, Staging(t.name), cond);
    AcceptedRows(db, dbi, chain, i, rk, choose);
    FilterSame(staged, (r: Row) => Holds(dbi, cond, r), KeyIn(c, accepted));
    ProjectFiltered(staged, (r: Row) => Holds(dbi, cond, r), columns);
  }

  lemma AcceptedRows(db: Database, dbi: Database, chain: seq<TableSchema>, i: nat, rk: Column, choose: Chooser)
    requires Mergeable(chain, rk) && Sane(db, chain, rk) && i < |chain|
    requires Listed(db, dbi, chain[0], rk, choose)
    ensures forall r :: r in Rows(db, Staging(chain[i].name)) ==>
      (Holds(dbi, InsertCond(chain, chain[i], Some(rk), Some(LastKey(chain, rk))), r)
       <==> Get(r, InsertKey(chain, i, rk)) in Accepted(db, chain[0], rk, choose))
  {
    var root, t, c := chain[0], chain[i], InsertKey(chain, i, rk);
    var staged, accepted := Rows(db, Staging(t.name)), Accepted(db, root, rk, choose);
    var cond := InsertCond(chain, t, Some(rk), Some(LastKey(chain, rk)));
    if PrimaryKeys(root) != [] || (i > 0 && NotDeleted(root).Some?) {
      forall r ensures Holds(dbi, cond, r) <==> Get(r, c) in accepted {
        InMeans(dbi, c, InsertTemp(root), rk, r);
      }
    } else if NotDeleted(root).Some? {
      UniqueSelects(staged, rk, LiveIn(root));
      forall r | r in staged ensures Holds(dbi, cond, r) <==> Get(r, rk) in accepted {
        LiveMeans(dbi, root, r);
        LiveAccepted(db, root, rk, choose, r);
      }
    } else {
      FilterAll(Rows(db, Staging(root.name)), LiveIn(root));
      forall r | r in staged ensures Get(r, c) in accepted {
        assert Get(r, c) in Keys(staged, c);
      }
    }
  }

  lemma LiveAccepted(db: Database, root: TableSchema, rk: Column, choose: Chooser, r: Row)
    requires PrimaryKeys(root) == [] && Unique(Rows(db, Staging(root.name)), rk) && r in Rows(db, Staging(root.name))
    ensures Live(root, r) <==> Get(r, rk) in Accepted(db, root, rk, choose)
  {
    var staged := Rows(db, Staging(root.name));
    if Get(r, rk) in Accepted(db, root, rk, choose) {
      var s :| s in Filter(staged, LiveIn(root)) && Get(s, rk) == Get(r, rk);
      UniqueRow(staged, rk, r, s);
    }
  }

  /** Between `db2` and `db'` the rows of accepted trees were added to the first `upTo` tables. */
  ghost predicate Filled(db: Database, db2: Database, db': Database, chain: seq<TableSchema>, upTo: nat, rk: Column,
                         choose: Chooser)
  {
    && upTo <= |chain|
    && (forall i :: 0 <= i < upTo ==>
          Rows(db', Dest(chain[i].name)) == Rows(db2, Dest(chain[i].name)) + Incoming(db, chain, i, rk, choose))
    && (forall t :: !IsDest(chain[..upTo], t) ==> Rows(db', t) == Rows(db2, t))
  }

  ghost predicate Listed(db: Database, dbi: Database, root: TableSchema, rk: Column, choose: Chooser) {
    ListsAccepted(root) ==>
      Keys(Rows(dbi, InsertTemp(root)), rk) == Accepted(db, root, rk, choose)
  }

  lemma {:induction false} InsertsRun(db: Database, db2: Database, chain: seq<TableSchema>, upTo: nat, rk: Column,
                                      choose: Chooser)
    requires Mergeable(chain, rk) && Sane(db, chain, rk) && SameStaging(db, db2) && upTo <= |chain|
    requires Listed(db, db2, chain[0], rk, choose)
    ensures Filled(db, db2, Run(db2, Inserts(chain, upTo, Some(rk), Some(LastKey(chain, rk))), choose), chain, upTo, rk,
                   choose)
  {
    hide Filled, Mergeable, Sane, Listed, InsertFor;
    if upTo == 0 {
      NothingFilled(db, db2, chain, rk, choose);
    } else {
      var n := upTo - 1;
      InsertsRun(db, db2, chain, n, rk, choose);
      var stmts, stmt := Inserts(chain, n, Some(rk), Some(LastKey(chain, rk))),
        InsertFor(chain, chain[n], Some(rk), Some(LastKey(chain, rk)));
      RunAppend(db2, stmts, stmt, choose);
      FilledOneMore(db, db2, Run(db2, stmts, choose), chain, n, rk, choose);
    }
  }

  lemma NothingFilled(db: Database, db2: Database, chain: seq<TableSchema>, rk: Column, choose: Chooser)
    ensures Filled(db, db2, db2, chain, 0, rk, choose)
  {
  }

  lemma FilledOneMore(db: Database, db2: Database, dbn: Database, chain: seq<TableSchema>, n: nat, rk: Column,
                      choose: Chooser)
    requires Mergeable(chain, rk) && Sane(db, chain, rk) && SameStaging(db, db2) && n < |chain|
    requires Listed(db, db2, chain[0], rk, choose)
    requires Filled(db, db2, dbn, chain, n, rk, choose)
    ensures Filled(db, db2, Exec(dbn, InsertFor(chain, chain[n], Some(rk), Some(LastKey(chain, rk))), choose), chain,
                   n + 1, rk, choose)
  {
    hide Incoming, Accepted, Selected, InsertCond, Run, Sane, Filled, SameStaging, Listed;
    OnlyDestTouched(db, db2, dbn, chain, n, rk, choose);
    IncomingSelected(db, dbn, chain, n, rk, choose);
    FilledByOne(db, db2, dbn, chain, n, rk, choose);
  }

  lemma FilledByOne(db: Database, db2: Database, dbn: Database, chain: seq<TableSchema>, n: nat, rk: Column,
                    choose: Chooser)
    requires DistinctNames(chain) && n < |chain| && Filled(db, db2, dbn, chain, n, rk, choose)
    ensures Filled(db, db2, dbn[Dest(chain[n].name) := Rows(dbn, Dest(chain[n].name))
                                + Incoming(db, chain, n, rk, choose)],
                   chain, n + 1, rk, choose)
  {
    hide Incoming, IsDest;
    assert chain[..n + 1][..n] == chain[..n] && chain[..n + 1][n] == chain[n];
    IsDestSplit(chain[..n + 1]);
  }

  lemma OnlyDestTouched(db: Database, db2: Database, dbn: Database, chain: seq<TableSchema>, n: nat, rk: Column,
                        choose: Chooser)
    requires chain != [] && SameStaging(db, db2) && Listed(db, db2, chain[0], rk, choose)
    requires Filled(db, db2, dbn, chain, n, rk, choose)
    ensures SameStaging(db, dbn) && Listed(db, dbn, chain[0], rk, choose)
  {
    hide Incoming, Accepted;
  }

  // ---------------------------------------------------------------------------------------
  // The whole merge

  /** Running the generated statements removes from every table of the chain the rows of doomed
      trees and adds the staged rows of accepted ones; staging and other tables stay as they are. */
  lemma NestedMergeResult(db: Database, chain: seq<TableSchema>, tempForDelete: bool, rk: Column, choose: Chooser)
    requires Mergeable(chain, rk) && Sane(db, chain, rk)
    ensures MergeSql(chain, tempForDelete).Ok?
    ensures
      var db' := Run(db, MergeSql(chain, tempForDelete).value, choose);
      && (forall i :: 0 <= i < |chain| ==>
            Rows(db', Dest(chain[i].name))
            == Without(Rows(db, Dest(chain[i].name)), OwnKey(chain, i, rk), Doomed(db, chain[0], rk))
               + Incoming(db, chain, i, rk, choose))
      && (forall t :: !IsDest(chain, t) && !t.Temp? ==> Rows(db', t) == Rows(db, t))
  {
    hide Sane, Doomed, Accepted, Incoming, InsertTemps, Deletes, Inserts, Filled, Cleared, Listed, Without, Run, IsDest;
    DeletesRun(db, chain, tempForDelete, rk, choose);
    var deletes := Deletes(chain, tempForDelete).value.statements;
    var db1 := Run(db, deletes, choose);
    ClearedStaging(db, db1, chain, rk);
    TempsRun(db, db1, chain, rk, choose);
    var temps := InsertTemps(chain, Some(rk)).value;
    var db2 := Run(db1, temps, choose);
    var inserts := Inserts(chain, |chain|, Some(rk), Some(LastKey(chain, rk)));
    InsertsRun(db, db2, chain, |chain|, rk, choose);
    RunConcat(db, deletes, temps, choose);
    RunConcat(db, deletes + temps, inserts, choose);
    ResultByParts(db, db1, db2, Run(db2, inserts, choose), chain, rk, choose);
  }

  lemma ClearedStaging(db: Database, db1: Database, chain: seq<TableSchema>, rk: Column)
    requires chain != [] && Cleared(db, db1, chain, rk)
    ensures SameStaging(db, db1)
  {
  }

  lemma ResultByParts(db: Database, db1: Database, db2: Database, db': Database, chain: seq<TableSchema>, rk: Column,
                      choose: Chooser)
    requires chain != [] && Cleared(db, db1, chain, rk)
    requires forall t :: t != InsertTemp(chain[0]) ==> Rows(db2, t) == Rows(db1, t)
    requires Filled(db, db2, db', chain, |chain|, rk, choose)
    ensures forall i :: 0 <= i < |chain| ==>
      Rows(db', Dest(chain[i].name))
      == Without(Rows(db, Dest(chain[i].name)), OwnKey(chain, i, rk), Doomed(db, chain[0], rk))
        + Incoming(db, chain, i, rk, choose)
    ensures forall t :: !IsDest(chain, t) && !t.Temp? ==> Rows(db', t) == Rows(db, t)
  {
    hide Doomed, Incoming, Without;
    assert chain[..|chain|] == chain;
  }

  /** Whether the insert into the i-th table looks up that table's own root key. */
  predicate FindsOwn(chain: seq<TableSchema>, i: nat, rk: Column)
    requires i < |chain|
  {
    ListsAccepted(chain[0]) && i > 0 ==> OwnKey(chain, i, rk) == LastKey(chain, rk)
  }

  lemma OwnFound(chain: seq<TableSchema>, i: nat, rk: Column)
    requires i < |chain| && FindsOwn(chain, i, rk)
    ensures InsertKey(chain, i, rk) == OwnKey(chain, i, rk)
  {
  }

  /** After the merge every nested row still refers to a row of the root table, in every table whose
      insert looks up its own root key. */
  lemma ReferentialIntegrityKept(db: Database, chain: seq<TableSchema>, tempForDelete: bool, rk: Column,
                                 choose: Chooser)
    requires Mergeable(chain, rk) && Sane(db, chain, rk)
    ensures MergeSql(chain, tempForDelete).Ok?
    ensures
      var db' := Run(db, MergeSql(chain, tempForDelete).value, choose);
      forall i :: 1 <= i < |chain| && FindsOwn(chain, i, rk) ==>
        Refers(Rows(db', Dest(chain[i].name)), OwnKey(chain, i, rk), Rows(db', Dest(chain[0].name)), rk)
  {
    hide Doomed, Accepted, Deletes, InsertTemps, Inserts, Run, MergeSql, Dedup, OwnKey, InsertKey, FindsOwn, Refers,
         RootKeyCol,
         Within, Without;
    NestedMergeResult(db, chain, tempForDelete, rk, choose);
    var db' := Run(db, MergeSql(chain, tempForDelete).value, choose);
    var doomed, accepted := Doomed(db, chain[0], rk), Accepted(db, chain[0], rk, choose);
    RootIsOwn(chain, rk);
    forall i | 1 <= i < |chain| && FindsOwn(chain, i, rk)
      ensures Refers(Rows(db', Dest(chain[i].name)), OwnKey(chain, i, rk), Rows(db', Dest(chain[0].name)), rk)
    {
      OwnFound(chain, i, rk);
      ReferenceKept(Rows(db, Dest(chain[i].name)), Rows(db, Staging(chain[i].name)), OwnKey(chain, i, rk),
                    Rows(db, Dest(chain[0].name)), Rows(db, Staging(chain[0].name)), rk, doomed, accepted);
    }
  }

  lemma RootIsOwn(chain: seq<TableSchema>, rk: Column)
    requires chain != []
    ensures OwnKey(chain, 0, rk) == InsertKey(chain, 0, rk) == rk
  {
  }

  lemma ReferenceKept(nested: seq<Row>, staged: seq<Row>, g: Column, root: seq<Row>, stagedRoot: seq<Row>, rk: Column,
                      doomed: set<Value>, accepted: set<Value>)
    requires Refers(nested, g, root, rk) && Refers(staged, g, stagedRoot, rk)
    ensures Refers(Without(nested, g, doomed) + Within(staged, g, accepted), g,
                   Without(root, rk, doomed) + Within(stagedRoot, rk, accepted), rk)
  {
    var nested', root' := Without(nested, g, doomed) + Within(staged, g, accepted),
      Without(root, rk, doomed) + Within(stagedRoot, rk, accepted);
    forall v | v in Keys(nested', g) ensures v in Keys(root', rk) {
      var n :| n in nested' && Get(n, g) == v;
      if n in Without(nested, g, doomed) {
        assert v in Keys(nested, g);
        var r :| r in root && Get(r, rk) == v;
        assert r in root';
      } else {
        assert v in Keys(staged, g);
        var r :| r in stagedRoot && Get(r, rk) == v;
        assert r in root';
      }
    }
  }

  /** Trees are replaced as a whole: in every table of the chain whose insert looks up its own root
      key, the rows of the tree with row key `k` are afterwards its old rows unless it was doomed, and
      its staged rows if it was accepted. */
  lemma TreesReplaced(db: Database, chain: seq<TableSchema>, tempForDelete: bool, rk: Column, choose: Chooser, k: Value)
    requires Mergeable(chain, rk) && Sane(db, chain, rk)
    ensures MergeSql(chain, tempForDelete).Ok?
    ensures
      var db' := Run(db, MergeSql(chain, tempForDelete).value, choose);
      forall i :: 0 <= i < |chain| && FindsOwn(chain, i, rk) ==>
        TreeReplaced(db, db', chain, i, rk, choose, k)
  {
    hide Sane, Doomed, Accepted, Run, MergeSql, Within, Without, OwnKey, InsertKey, FindsOwn, RootKeyCol, RowKeyCol;
    NestedMergeResult(db, chain, tempForDelete, rk, choose);
    var db' := Run(db, MergeSql(chain, tempForDelete).value, choose);
    forall i | 0 <= i < |chain| && FindsOwn(chain, i, rk) ensures TreeReplaced(db, db', chain, i, rk, choose, k) {
      OwnFound(chain, i, rk);
      OneTree(Rows(db, Dest(chain[i].name)), Rows(db, Staging(chain[i].name)), OwnKey(chain, i, rk),
              Doomed(db, chain[0], rk), Accepted(db, chain[0], rk, choose), k);
    }
  }

  ghost predicate TreeReplaced(db: Database, db': Database, chain: seq<TableSchema>, i: nat, rk: Column,
                               choose: Chooser, k: Value)
    requires i < |chain|
  {
    Within(Rows(db', Dest(chain[i].name)), OwnKey(chain, i, rk), {k})
    == (if k in Doomed(db, chain[0], rk) then [] else Within(Rows(db, Dest(chain[i].name)), OwnKey(chain, i, rk), {k}))
       + (if k in Accepted(db, chain[0], rk, choose)
          then Within(Rows(db, Staging(chain[i].name)), OwnKey(chain, i, rk), {k}) else [])
  }

  lemma OneTree(rows: seq<Row>, staged: seq<Row>, c: Column, doomed: set<Value>, accepted: set<Value>, k: Value)
    ensures Within(Without(rows, c, doomed) + Within(staged, c, accepted), c, {k})
            == (if k in doomed then [] else Within(rows, c, {k}))
              + (if k in accepted then Within(staged, c, {k}) else [])
  {
    var f := KeyIn(c, {k});
    FilterConcat(Without(rows, c, doomed), Within(staged, c, accepted), f);
    if k in doomed {
      FilterNone(Without(rows, c, doomed), f);
    } else {
      FilterTwice(rows, KeyNotIn(c, doomed), f, f);
    }
    if k in accepted {
      FilterTwice(staged, KeyIn(c, accepted), f, f);
    } else {
      FilterNone(Within(staged, c, accepted), f);
    }
  }

  /** The doomed root rows are exactly those that a staged row matches on a key. */
  lemma DoomedAreMatched(db: Database, root: TableSchema, rk: Column)
    requires Unique(Rows(db, Dest(root.name)), rk)
    ensures Without(Rows(db, Dest(root.name)), rk, Doomed(db, root, rk))
            == Filter(Rows(db, Dest(root.name)), (r: Row) => !MatchedIn(Rows(db, Staging(root.name)), Clauses(root))(r))
  {
    UniqueSelects(Rows(db, Dest(root.name)), rk, MatchedIn(Rows(db, Staging(root.name)), Clauses(root)));
  }

  /** With a primary key, a staged root row is accepted just when it wins among the staged rows of
      its key and is not marked as deleted; each key has one candidate, so if that one is marked
      as deleted, no row of the key is inserted. */
  lemma OneAcceptedPerKey(db: Database, root: TableSchema, rk: Column, choose: Chooser, r: Row)
    requires PrimaryKeys(root) != [] && Unique(Rows(db, Staging(root.name)), rk) && r in Rows(db, Staging(root.name))
    ensures
      var candidates := Candidates(db, root, choose);
      && KeysDiffer(candidates, PrimaryKeys(root))
      && HasWinner(candidates, PrimaryKeys(root), KeyOf(r, PrimaryKeys(root)))
      && (forall w :: w in candidates ==>
          Wins(w, Rows(db, Staging(root.name)), PrimaryKeys(root), DedupSort(root.columns)))
      && (Get(r, rk) in Accepted(db, root, rk, choose) <==> r in candidates && Live(root, r))
  {
    var staged, candidates := Rows(db, Staging(root.name)), Candidates(db, root, choose);
    DedupKeepsWinners(staged, PrimaryKeys(root), DedupSort(root.columns), choose);
    if Get(r, rk) in Accepted(db, root, rk, choose) {
      var w :| w in Filter(candidates, LiveIn(root)) && Get(w, rk) == Get(r, rk);
      assert Wins(w, staged, PrimaryKeys(root), DedupSort(root.columns));
      UniqueRow(staged, rk, r, w);
    }
    if r in candidates && Live(root, r) {
      assert r in Filter(candidates, LiveIn(root));
    }
  }

  /** Row keys stay unique exactly when no accepted row key is that of a surviving row. */
  lemma RowKeysStayUnique(db: Database, chain: seq<TableSchema>, tempForDelete: bool, rk: Column, choose: Chooser)
    requires Mergeable(chain, rk) && Sane(db, chain, rk)
    ensures MergeSql(chain, tempForDelete).Ok?
    ensures
      var db' := Run(db, MergeSql(chain, tempForDelete).value, choose);
      var kept := Without(Rows(db, Dest(chain[0].name)), rk, Doomed(db, chain[0], rk));
      Unique(Rows(db', Dest(chain[0].name)), rk)
      <==> Keys(kept, rk) !! Keys(Within(Rows(db, Staging(chain[0].name)), rk, Accepted(db, chain[0], rk, choose)), rk)
  {
    hide Mergeable, Doomed, Accepted, Run, MergeSql, Within, Without, Keys;
    NestedMergeResult(db, chain, tempForDelete, rk, choose);
    RootIsOwn(chain, rk);
    UniqueFiltered(Rows(db, Dest(chain[0].name)), rk, KeyNotIn(rk, Doomed(db, chain[0], rk)));
    UniqueFiltered(Rows(db, Staging(chain[0].name)), rk, KeyIn(rk, Accepted(db, chain[0], rk, choose)));
    WithMeansFilter(Rows(db, Dest(chain[0].name)), Rows(db, Staging(chain[0].name)), rk, Doomed(db, chain[0], rk),
                    Accepted(db, chain[0], rk, choose));
    UniqueConcat(Without(Rows(db, Dest(chain[0].name)), rk, Doomed(db, chain[0], rk)),
                 Within(Rows(db, Staging(chain[0].name)), rk, Accepted(db, chain[0], rk, choose)), rk);
  }

  lemma WithMeansFilter(rows: seq<Row>, staged: seq<Row>, c: Column, out: set<Value>, in_: set<Value>)
    ensures Without(rows, c, out) == Filter(rows, KeyNotIn(c, out))
            && Within(staged, c, in_) == Filter(staged, KeyIn(c, in_))
  {
  }

  // ---------------------------------------------------------------------------------------
  // No key to merge by

  lemma WholeSelected(db: Database, chain: seq<TableSchema>, t: TableSchema, choose: Chooser)
    requires chain != [] && PrimaryKeys(chain[0]) == [] && NotDeleted(chain[0]).None?
    requires Shaped(Rows(db, Staging(t.name)), AllColumns(t.columns))
    ensures Exec(db, InsertFor(chain, t, None, None), choose)
            == db[Dest(t.name) := Rows(db, Dest(t.name)) + Rows(db, Staging(t.name))]
  {
    hide NotDeleted, PrimaryKeys;
    var staged := Rows(db, Staging(t.name));
    assert InsertFor(chain, t, None, None).query == SelectRows(AllColumns(t.columns), Staging(t.name), Always);
    FilterAll(staged, (r: Row) => Holds(db, Always, r));
    ProjectAll(staged, AllColumns(t.columns));
  }

  /** `db'` is `db` with the staged rows in these tables. */
  ghost predicate WithStaged(db: Database, db': Database, tables: seq<TableSchema>) {
    forall t: Table ::
      Rows(db', t) == if IsDest(tables, t) then Rows(db, t) + Rows(db, Staging(t.name)) else Rows(db, t)
  }

  lemma {:induction false} AppendsRun(db: Database, chain: seq<TableSchema>, upTo: nat, choose: Chooser)
    requires chain != [] && upTo <= |chain| && DistinctNames(chain)
    requires PrimaryKeys(chain[0]) == [] && NotDeleted(chain[0]).None?
    requires forall i :: 0 <= i < |chain| ==> Shaped(Rows(db, Staging(chain[i].name)), AllColumns(chain[i].columns))
    ensures WithStaged(db, Run(db, Inserts(chain, upTo, None, None), choose), chain[..upTo])
    decreases upTo
  {
    hide InsertFor, Exec, Shaped, AllColumns, NotDeleted, PrimaryKeys, IsDest, WithStaged, DistinctNames;
    if upTo == 0 {
      NoneStaged(db);
    } else {
      var n := upTo - 1;
      AppendsRun(db, chain, n, choose);
      var dbn := Run(db, Inserts(chain, n, None, None), choose);
      RunAppend(db, Inserts(chain, n, None, None), InsertFor(chain, chain[n], None, None), choose);
      StagingKept(db, dbn, chain[..n], chain[n].name);
      WholeSelected(dbn, chain, chain[n], choose);
      assert chain[..upTo][..n] == chain[..n] && chain[..upTo][n] == chain[n];
      StagedMore(db, dbn, chain[..upTo]) by { FrontDistinct(chain, upTo); }
    }
  }

  lemma FrontDistinct(chain: seq<TableSchema>, n: nat)
    requires DistinctNames(chain) && n <= |chain|
    ensures DistinctNames(chain[..n])
  {
  }

  lemma NoneStaged(db: Database)
    ensures WithStaged(db, db, [])
  {
  }

  lemma StagingKept(db: Database, db': Database, tables: seq<TableSchema>, name: string)
    requires WithStaged(db, db', tables)
    ensures Rows(db', Staging(name)) == Rows(db, Staging(name))
  {
    DestsOnly(tables);
  }

  lemma StagedMore(db: Database, dbn: Database, tables: seq<TableSchema>)
    requires tables != [] && DistinctNames(tables) && WithStaged(db, dbn, tables[..|tables| - 1])
    ensures
      var t := Dest(tables[|tables| - 1].name);
      WithStaged(db, dbn[t := Rows(dbn, t) + Rows(dbn, Staging(t.name))], tables)
  {
    hide IsDest;
    IsDestSplit(tables);
    StagingKept(db, dbn, tables[..|tables| - 1], tables[|tables| - 1].name);
  }

  lemma DestsOnly(tables: seq<TableSchema>)
    ensures forall t :: IsDest(tables, t) ==> t.Dest?
  {
  }

  /** With no key to merge by and nothing marked as deleted, the merge is a staged append: every table of
      the chain gets its staged rows, and nothing is removed. */
  lemma StagedAppend(db: Database, chain: seq<TableSchema>, tempForDelete: bool, choose: Chooser)
    requires chain != [] && DistinctNames(chain)
    requires PrimaryKeys(chain[0]) == [] && MergeKeys(chain[0]) == [] && NotDeleted(chain[0]).None?
    requires forall i :: 0 <= i < |chain| ==> Shaped(Rows(db, Staging(chain[i].name)), AllColumns(chain[i].columns))
    ensures MergeSql(chain, tempForDelete).Ok?
    ensures
      var db' := Run(db, MergeSql(chain, tempForDelete).value, choose);
      forall t: Table :: Rows(db', t) == if IsDest(chain, t) then Rows(db, t) + Rows(db, Staging(t.name))
        else Rows(db, t)
  {
    hide Run, Inserts, Shaped, NotDeleted;
    assert MergeSql(chain, tempForDelete).value == [] + [] + Inserts(chain, |chain|, None, None);
    assert [] + [] + Inserts(chain, |chain|, None, None) == Inserts(chain, |chain|, None, None);
    assert chain[..|chain|] == chain;
    AppendsRun(db, chain, |chain|, choose);
  }
}
