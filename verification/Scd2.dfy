/**
  Slowly changing dimensions: the history that a run of loads builds up in a versioned root table,
  and how it is read back.
*/
module Scd2 {
  import opened Options
  import opened SqlModel
  import opened SqlMerge
  import opened RowFacts

  /** A versioned root table with its nested tables, its validity columns and the value of `to` that
      marks an active row; `render` is the text that the database makes of values to concatenate. */
  datatype Dimension = Dimension(root: TableSchema, nested: seq<TableSchema>, v: Validity, active: Value,
                                 render: Value -> string)

  /** A load stamps its rows with its boundary, which is the hinted time if there is one, or else the
      time its package was created; it replaces the staged rows of every table. */
  datatype Load = Load(hint: Option<int>, createdAt: int, staged: Database) {
    const boundary: int := if hint.Some? then hint.value else createdAt
  }

  // ---------------------------------------------------------------------------------------
  // Reading a versioned table

  function Others(d: Dimension): seq<Column> {
    OtherColumns(AllColumns(d.root.columns), d.v)
  }

  /** What a row says, apart from when it was valid. */
  function Facts(d: Dimension, r: Row): Row {
    Project(r, Others(d))
  }

  function Current(d: Dimension): Row -> bool {
    (r: Row) => Get(r, d.v.to) == d.active
  }

  /** from <= t < to, or still active */
  function InForceAt(d: Dimension, t: int): Row -> bool {
    (r: Row) => Get(r, d.v.from).Num? && Get(r, d.v.from).n <= t
                && (Get(r, d.v.to) == d.active || (Get(r, d.v.to).Num? && t < Get(r, d.v.to).n))
  }

  function FactsWhere(d: Dimension, rows: seq<Row>, keep: Row -> bool): (r: seq<Row>)
    ensures forall c :: c in r <==> exists x :: x in rows && keep(x) && Facts(d, x) == c
    decreases rows
  {
    if rows == [] then []
    else
      var rest := FactsWhere(d, rows[1..], keep);
      assert forall x :: x in rows <==> x == rows[0] || x in rows[1..];
      if keep(rows[0]) then [Facts(d, rows[0])] + rest else rest
  }

  /** What the table says was the case at time `t`. */
  function View(d: Dimension, rows: seq<Row>, t: int): seq<Row> {
    FactsWhere(d, rows, InForceAt(d, t))
  }

  /** What the table says is the case now. */
  function Present(d: Dimension, rows: seq<Row>): seq<Row> {
    FactsWhere(d, rows, Current(d))
  }

  function StagedFacts(d: Dimension, staged: seq<Row>): seq<Row> {
    FactsWhere(d, staged, (r: Row) => true)
  }

  // ---------------------------------------------------------------------------------------
  // What a load should do

  function KeyExpr(d: Dimension): Expr {
    MergeKeyExpr(MergeKeys(d.root), d.render)
  }

  function KeyValues(e: Expr, rows: seq<Row>): set<Value> {
    set r | r in rows :: Eval(e, r)
  }

  /** Whether a load brings the merge key of `r`. */
  ghost predicate KeyStaged(d: Dimension, staged: seq<Row>, r: Row) {
    exists s :: s in staged && KeyOf(s, MergeKeys(d.root)) == KeyOf(r, MergeKeys(d.root))
  }

  /** Whether a load leaves what it does not bring alone: only with a merge key, and only rows whose
      key it does not bring. */
  ghost predicate Untouched(d: Dimension, staged: seq<Row>, r: Row) {
    MergeKeys(d.root) != [] && !KeyStaged(d, staged, r)
  }

  /** The snapshot after a load: the staged rows, and what the load leaves alone of the snapshot
      before it. */
  ghost function Loaded(d: Dimension, before: set<Row>, staged: seq<Row>): set<Row> {
    (set r | r in before && Untouched(d, staged, r)) + AsSet(StagedFacts(d, staged))
  }

  function AsSet(rows: seq<Row>): set<Row> {
    set r | r in rows
  }

  function StagedOf(d: Dimension, load: Load): seq<Row> {
    Rows(load.staged, Staging(d.root.name))
  }

  /** The snapshot in force at `t`: what the table said before these loads, taken through those
      loads that had happened by then. */
  ghost function Snapshot(d: Dimension, before: seq<Row>, loads: seq<Load>, t: int): set<Row>
    decreases loads
  {
    if loads == [] then AsSet(View(d, before, t))
    else
      var earlier := Snapshot(d, before, loads[..|loads| - 1], t);
      var last := loads[|loads| - 1];
      if last.boundary <= t then Loaded(d, earlier, StagedOf(d, last)) else earlier
  }

  // ---------------------------------------------------------------------------------------
  // What is taken for granted

  function Names(d: Dimension): seq<string> {
    Map([d.root] + d.nested, (t: TableSchema) => t.name)
  }

  /** The validity columns are apart from each other, the hash and the merge keys; the tables of the
      chain have different names, and nested ones have row keys. */
  ghost predicate Proper(d: Dimension) {
    && ValidityOf(d.root) == Some(d.v) && ActiveOf(d.root.columns) == Some(d.active)
    && d.v.from != d.v.to
    && d.v.hash in Others(d)
    && (forall k :: k in MergeKeys(d.root) ==> k in Others(d))
    && (forall i, j :: 0 <= i < j < |Names(d)| ==> Names(d)[i] != Names(d)[j])
    && NestedAdds(d.nested).Ok?
  }

  /** Every row says what its hash stands for. */
  ghost predicate Hashed(d: Dimension, rows: seq<Row>, meaning: Value -> Row) {
    forall r :: r in rows ==> Facts(d, r) == meaning(Get(r, d.v.hash))
  }

  predicate IsTimely(d: Dimension, b: int, r: Row) {
    && Get(r, d.v.from).Num? && Get(r, d.v.from).n <= b
    && (Get(r, d.v.to) == d.active || (Get(r, d.v.to).Num? && Get(r, d.v.to).n <= b))
  }

  /** No row dates from after `b`. */
  ghost predicate Timely(d: Dimension, b: int, rows: seq<Row>) {
    forall r :: r in rows ==> IsTimely(d, b, r)
  }

  ghost predicate Prepared(d: Dimension, load: Load, meaning: Value -> Row) {
    && Num(load.boundary) != d.active
    && (forall t :: t in load.staged ==> t.Staging?)
    && (forall n :: n in Names(d) ==> Staging(n) in load.staged)
    && Hashed(d, StagedOf(d, load), meaning)
  }

  /** Loads come one after the other, each with a later boundary. */
  ghost predicate InOrder(d: Dimension, b: int, loads: seq<Load>, meaning: Value -> Row) {
    && (forall i :: 0 <= i < |loads| ==> Prepared(d, loads[i], meaning) && b < loads[i].boundary)
    && (forall i, j :: 0 <= i < j < |loads| ==> loads[i].boundary < loads[j].boundary)
  }

  // ---------------------------------------------------------------------------------------
  // Running loads

  /** The tables as a load finds them, with its hint for the boundary. */
  function Chain(d: Dimension, load: Load): seq<TableSchema> {
    [d.root.(boundary := load.hint)] + d.nested
  }

  ghost function LoadInto(d: Dimension, db: Database, load: Load, choose: Chooser): Database
    requires Proper(d)
  {
    ChainSql(d, load);
    Run(db + load.staged, Scd2Sql(Chain(d, load), load.createdAt, d.render).value, choose)
  }

  lemma ChainSql(d: Dimension, load: Load)
    requires Proper(d)
    ensures Scd2Sql(Chain(d, load), load.createdAt, d.render)
            == Ok([Retire(d.root, d.v, Num(load.boundary), d.active, d.render),
                   Activate(d.root, d.v, Num(load.boundary), d.active)]
                  + NestedAdds(d.nested).value)
  {
    hide Names, FirstWith, ActiveOf;
    assert Chain(d, load)[1..] == d.nested;
  }

  ghost function LoadAll(d: Dimension, db: Database, loads: seq<Load>, choose: Chooser): Database
    requires Proper(d)
    decreases loads
  {
    if loads == [] then db
    else LoadInto(d, LoadAll(d, db, loads[..|loads| - 1], choose), loads[|loads| - 1], choose)
  }

  function RootRows(d: Dimension, db: Database): seq<Row> {
    Rows(db, Dest(d.root.name))
  }

  // ---------------------------------------------------------------------------------------
  // What the statements do to the root table

  /** Whether the lookup of the key of `r` finds it among those of the staged rows. */
  predicate KeyFound(d: Dimension, staged: seq<Row>, r: Row) {
    Eval(KeyExpr(d), r) in KeyValues(KeyExpr(d), staged)
  }

  /** An active row whose hash is not staged; with a merge key, only if its key is found. */
  predicate Leaves(d: Dimension, staged: seq<Row>, r: Row) {
    && Get(r, d.v.to) == d.active && Get(r, d.v.hash) !in Keys(staged, d.v.hash)
    && (MergeKeys(d.root) == [] || KeyFound(d, staged, r))
  }

  function Retiring(d: Dimension, b: int, staged: seq<Row>): Row -> Row {
    (r: Row) => if Leaves(d, staged, r) then r[d.v.to := Num(b)] else r
  }

  function Retired(d: Dimension, b: int, staged: seq<Row>, rows: seq<Row>): seq<Row> {
    Map(rows, Retiring(d, b, staged))
  }

  ghost function Fresh(d: Dimension, rows: seq<Row>): Row -> bool {
    (s: Row) => Get(s, d.v.hash) !in Keys(Filter(rows, Current(d)), d.v.hash)
  }

  function Stamping(d: Dimension, b: int): Row -> Row {
    (s: Row) => Stamped(s, Others(d), [(d.v.from, Num(b)), (d.v.to, d.active)])
  }

  ghost function Added(d: Dimension, b: int, staged: seq<Row>, rows: seq<Row>): seq<Row> {
    Map(Filter(staged, Fresh(d, rows)), Stamping(d, b))
  }

  ghost function AfterLoad(d: Dimension, b: int, staged: seq<Row>, rows: seq<Row>): seq<Row> {
    var retired := Retired(d, b, staged, rows);
    retired + Added(d, b, staged, retired)
  }

  lemma IsActiveMeans(db: Database, d: Dimension, r: Row)
    ensures Holds(db, IsActive(d.v.to, d.active), r) <==> Current(d)(r)
  {
  }

  lemma LeavesMeans(db: Database, d: Dimension, b: Value, staged: seq<Row>, r: Row)
    requires staged == Rows(db, Staging(d.root.name))
    ensures Holds(db, Retire(d.root, d.v, b, d.active, d.render).cond, r) <==> Leaves(d, staged, r)
  {
    IsActiveMeans(db, d, r);
    var key, src, active := KeyExpr(d), Staging(d.root.name), IsActive(d.v.to, d.active);
    InMeans(db, d.v.hash, src, d.v.hash, r);
    var listed, keyed := In(Col(d.v.hash), Subquery(Col(d.v.hash), src, Always)), In(key, Subquery(key, src, Always));
    assert Holds(db, keyed, r) <==> Eval(key, r) in KeyValues(key, staged);
    var absent := And(active, Not(listed));
    assert Holds(db, absent, r) <==> Holds(db, active, r) && !Holds(db, listed, r) by {
      assert Holds(db, Not(listed), r) <==> !Holds(db, listed, r);
    }
    assert Holds(db, And(absent, keyed), r) <==> Holds(db, absent, r) && Holds(db, keyed, r);
  }

  lemma RetireRuns(db: Database, d: Dimension, b: int, choose: Chooser)
    ensures
      var staged := Rows(db, Staging(d.root.name));
      Exec(db, Retire(d.root, d.v, Num(b), d.active, d.render), choose)
      == db[Dest(d.root.name) := Retired(d, b, staged, RootRows(d, db))]
  {
    hide Holds, Leaves, Get;
    var staged, rows := Rows(db, Staging(d.root.name)), RootRows(d, db);
    var stmt := Retire(d.root, d.v, Num(b), d.active, d.render);
    forall r ensures Holds(db, stmt.cond, r) <==> Leaves(d, staged, r) {
      LeavesMeans(db, d, Num(b), staged, r);
    }
    MapSame(rows, (r: Row) => if Holds(db, stmt.cond, r) then r[d.v.to := Num(b)] else r, Retiring(d, b, staged));
  }

  lemma MapSame<T, U>(s: seq<T>, f: T -> U, g: T -> U)
    requires forall x :: x in s ==> f(x) == g(x)
    ensures Map(s, f) == Map(s, g)
  {
  }

  lemma FreshMeans(db: Database, d: Dimension, s: Row)
    ensures Holds(db, Activate(d.root, d.v, Null, d.active).cond, s) <==> Fresh(d, RootRows(d, db))(s)
  {
    hide Filter;
    var active := IsActive(d.v.to, d.active);
    forall r ensures Holds(db, active, r) <==> Current(d)(r) {
      IsActiveMeans(db, d, r);
    }
    assert Holds(db, In(Col(d.v.hash), Subquery(Col(d.v.hash), Dest(d.root.name), active)), s)
           <==> exists r :: r in RootRows(d, db) && Current(d)(r) && Get(r, d.v.hash) == Get(s, d.v.hash);
  }

  lemma ActivateRuns(db: Database, d: Dimension, b: int, choose: Chooser)
    ensures
      var rows := RootRows(d, db);
      Exec(db, Activate(d.root, d.v, Num(b), d.active), choose)
      == db[Dest(d.root.name) := rows + Added(d, b, Rows(db, Staging(d.root.name)), rows)]
  {
    hide Holds, Fresh, Stamped, Get;
    var staged, rows := Rows(db, Staging(d.root.name)), RootRows(d, db);
    var stmt := Activate(d.root, d.v, Num(b), d.active);
    forall s ensures Holds(db, stmt.cond, s) <==> Fresh(d, rows)(s) {
      FreshMeans(db, d, s);
    }
    FilterSame(staged, (r: Row) => Holds(db, stmt.cond, r), Fresh(d, rows));
    MapSame(Filter(staged, Fresh(d, rows)), (r: Row) => Stamped(r, stmt.columns, stmt.stamps), Stamping(d, b));
  }

  // ---------------------------------------------------------------------------------------
  // What the statements do to nested tables

  ghost function LacksRowKey(rows: seq<Row>, rk: Column): Row -> bool {
    KeyNotIn(rk, Keys(rows, rk))
  }

  /** Staged rows of a nested table with new row keys are added; no other table changes. */
  lemma AddNewRuns(db: Database, t: TableSchema, rk: Column, choose: Chooser)
    ensures
      var rows := Rows(db, Dest(t.name));
      Exec(db, AddNew(t, rk), choose)
      == db[Dest(t.name) := rows + Map(Filter(Rows(db, Staging(t.name)), LacksRowKey(rows, rk)),
                                       (r: Row) => Project(r, AllColumns(t.columns)))]
  {
    hide Holds, Get;
    var stmt := AddNew(t, rk);
    var rows := Rows(db, Dest(t.name));
    forall r ensures Holds(db, stmt.query.cond, r) <==> LacksRowKey(rows, rk)(r) {
      LacksMeans(db, t, rk, r);
    }
    FilterSame(Rows(db, Staging(t.name)), (r: Row) => Holds(db, stmt.query.cond, r), LacksRowKey(rows, rk));
    MapSame(Filter(Rows(db, Staging(t.name)), LacksRowKey(rows, rk)),
            (r: Row) => Project(r, stmt.query.columns), (r: Row) => Project(r, AllColumns(t.columns)));
  }

  lemma LacksMeans(db: Database, t: TableSchema, rk: Column, r: Row)
    ensures Holds(db, AddNew(t, rk).query.cond, r) <==> LacksRowKey(Rows(db, Dest(t.name)), rk)(r)
  {
    InMeans(db, rk, Dest(t.name), rk, r);
  }

  ghost function WithNew(t: TableSchema, rows: seq<Row>, staged: seq<Row>): seq<Row> {
    if RowKeyCol(t).Err? then rows
    else rows + Map(Filter(staged, LacksRowKey(rows, RowKeyCol(t).value)),
                    (r: Row) => Project(r, AllColumns(t.columns)))
  }

  /** `db'` is `db` with the new staged rows in these tables. */
  ghost predicate WithAdds(db: Database, db': Database, nested: seq<TableSchema>) {
    && (forall x: Table :: (forall t :: t in nested ==> x != Dest(t.name)) ==> Rows(db', x) == Rows(db, x))
    && (forall t :: t in nested ==>
          Rows(db', Dest(t.name)) == WithNew(t, Rows(db, Dest(t.name)), Rows(db, Staging(t.name))))
  }

  lemma {:induction false} NestedAddsRun(db: Database, nested: seq<TableSchema>, choose: Chooser)
    requires DistinctNames(nested) && NestedAdds(nested).Ok?
    ensures WithAdds(db, Run(db, NestedAdds(nested).value, choose), nested)
    decreases nested
  {
    hide WithNew, RowKeyCol, AddNew, Exec, Run, WithAdds;
    if nested == [] {
      NothingRuns(db, choose);
      NothingAdded(db);
    } else {
      var front, last := nested[..|nested| - 1], nested[|nested| - 1];
      var rk := RowKeyCol(last).value;
      NestedAddsRun(db, front, choose);
      var db1 := Run(db, NestedAdds(front).value, choose);
      assert NestedAdds(nested).value == NestedAdds(front).value + [AddNew(last, rk)];
      RunAppend(db, NestedAdds(front).value, AddNew(last, rk), choose);
      AddedMore(db, db1, nested, choose);
    }
  }

  lemma NothingAdded(db: Database)
    ensures WithAdds(db, db, [])
  {
  }

  lemma AddsNew(db: Database, t: TableSchema, rk: Column, choose: Chooser)
    requires RowKeyCol(t) == Ok(rk)
    ensures Exec(db, AddNew(t, rk), choose)
            == db[Dest(t.name) := WithNew(t, Rows(db, Dest(t.name)), Rows(db, Staging(t.name)))]
  {
    hide Exec, AddNew, LacksRowKey, RowKeyCol, AllColumns;
    AddNewRuns(db, t, rk, choose);
  }

  lemma AddedMore(db: Database, db1: Database, nested: seq<TableSchema>, choose: Chooser)
    requires nested != [] && DistinctNames(nested) && RowKeyCol(nested[|nested| - 1]).Ok?
    requires WithAdds(db, db1, nested[..|nested| - 1])
    ensures
      var last := nested[|nested| - 1];
      WithAdds(db, Exec(db1, AddNew(last, RowKeyCol(last).value), choose), nested)
  {
    hide WithNew, RowKeyCol, AddNew, Exec;
    var front, last := nested[..|nested| - 1], nested[|nested| - 1];
    var db2 := Exec(db1, AddNew(last, RowKeyCol(last).value), choose);
    AddsNew(db1, last, RowKeyCol(last).value, choose);
    hide DistinctNames;
    LastApart(nested);
    forall x: Table | forall t :: t in nested ==> x != Dest(t.name) ensures Rows(db2, x) == Rows(db, x) {
      assert last in nested && forall t :: t in front ==> t in nested;
    }
    assert Rows(db1, Dest(last.name)) == Rows(db, Dest(last.name));
    assert Rows(db1, Staging(last.name)) == Rows(db, Staging(last.name));
    forall t | t in nested
      ensures Rows(db2, Dest(t.name)) == WithNew(t, Rows(db, Dest(t.name)), Rows(db, Staging(t.name)))
    {
      if t in front {
        assert t.name != last.name;
      }
    }
  }

  lemma LastApart(nested: seq<TableSchema>)
    requires nested != [] && DistinctNames(nested)
    ensures forall t :: t in nested ==> t in nested[..|nested| - 1] || t == nested[|nested| - 1]
    ensures forall t :: t in nested[..|nested| - 1] ==> t in nested && t.name != nested[|nested| - 1].name
  {
    var front := nested[..|nested| - 1];
    forall t | t in front ensures t in nested && t.name != nested[|nested| - 1].name {
      var i :| 0 <= i < |front| && front[i] == t;
      assert nested[i] == t;
    }
  }

  lemma NothingRuns(db: Database, choose: Chooser)
    ensures Run(db, [], choose) == db
  {
  }

  lemma WithNewIs(t: TableSchema, rows: seq<Row>, staged: seq<Row>)
    requires RowKeyCol(t).Ok?
    ensures WithNew(t, rows, staged)
            == rows + Map(Filter(staged, LacksRowKey(rows, RowKeyCol(t).value)),
                          (r: Row) => Project(r, AllColumns(t.columns)))
  {
  }

  // ---------------------------------------------------------------------------------------
  // What one load does

  lemma NamesApart(d: Dimension)
    requires Proper(d)
    ensures DistinctNames(d.nested) && forall t :: t in d.nested ==> t.name != d.root.name
    ensures forall t :: t in d.nested || t == d.root ==> t.name in Names(d)
  {
    var all := [d.root] + d.nested;
    assert forall i :: 0 <= i < |all| ==> Names(d)[i] == all[i].name;
    forall i, j | 0 <= i < j < |d.nested| ensures d.nested[i].name != d.nested[j].name {
      assert all[i + 1] == d.nested[i] && all[j + 1] == d.nested[j];
    }
    forall t | t in d.nested || t == d.root ensures t.name in Names(d) && (t in d.nested ==> t.name != d.root.name) {
      if t in d.nested {
        var i :| 0 <= i < |d.nested| && d.nested[i] == t;
        assert all[i + 1] == t && Names(d)[0] == d.root.name;
      }
    }
  }

  /** A load retires and adds rows of the root table, and only adds to nested ones. */
  lemma LoadRuns(d: Dimension, db: Database, load: Load, choose: Chooser, meaning: Value -> Row)
    requires Proper(d) && Prepared(d, load, meaning)
    ensures
      var db' := LoadInto(d, db, load, choose);
      && RootRows(d, db') == AfterLoad(d, load.boundary, StagedOf(d, load), RootRows(d, db))
      && (forall t :: t in d.nested ==>
            Rows(db', Dest(t.name)) == WithNew(t, Rows(db, Dest(t.name)), Rows(load.staged, Staging(t.name))))
  {
    hide AfterLoad, Proper, WithNew, NestedAdds, Names, Scd2Sql, Hashed, Chain, Run;
    ChainSql(d, load);
    NamesApart(d);
    OpenProper(d);
    var db0 := db + load.staged;
    StatementsRun(d, db0, load.boundary, choose);
    assert Rows(db0, Staging(d.root.name)) == StagedOf(d, load);
    assert RootRows(d, db0) == RootRows(d, db);
    assert forall t :: t in d.nested ==> Rows(db0, Dest(t.name)) == Rows(db, Dest(t.name));
    assert forall t :: t in d.nested ==> Rows(db0, Staging(t.name)) == Rows(load.staged, Staging(t.name));
  }

  /** What running the statements of a load does to the tables. */
  lemma StatementsRun(d: Dimension, db: Database, b: int, choose: Chooser)
    requires Proper(d)
    ensures NestedAdds(d.nested).Ok?
    ensures
      var db' := Run(db, [Retire(d.root, d.v, Num(b), d.active, d.render), Activate(d.root, d.v, Num(b), d.active)]
                         + NestedAdds(d.nested).value, choose);
      && RootRows(d, db') == AfterLoad(d, b, Rows(db, Staging(d.root.name)), RootRows(d, db))
      && (forall t :: t in d.nested ==>
            Rows(db', Dest(t.name)) == WithNew(t, Rows(db, Dest(t.name)), Rows(db, Staging(t.name))))
  {
    hide Exec, Retire, Activate, Retired, Added, Proper, WithNew, NestedAdds, Names;
    NamesApart(d);
    OpenProper(d);
    var retire, activate := Retire(d.root, d.v, Num(b), d.active, d.render), Activate(d.root, d.v, Num(b), d.active);
    var adds := NestedAdds(d.nested).value;
    RetireRuns(db, d, b, choose);
    var db1 := Exec(db, retire, choose);
    ActivateRuns(db1, d, b, choose);
    var db2 := Exec(db1, activate, choose);
    RunTwoFirst(db, retire, activate, adds, choose);
    NestedAddsRun(db2, d.nested, choose);
    assert WithAdds(db2, Run(db2, adds, choose), d.nested);
    assert Rows(db1, Staging(d.root.name)) == Rows(db, Staging(d.root.name));
    assert forall t :: t in d.nested ==> Rows(db2, Dest(t.name)) == Rows(db, Dest(t.name));
    assert forall t :: t in d.nested ==> Rows(db2, Staging(t.name)) == Rows(db, Staging(t.name));
  }

  lemma OpenProper(d: Dimension)
    requires Proper(d)
    ensures NestedAdds(d.nested).Ok?
  {
  }

  lemma RunTwoFirst(db: Database, s: Statement, t: Statement, rest: seq<Statement>, choose: Chooser)
    ensures Run(db, [s, t] + rest, choose) == Run(Exec(Exec(db, s, choose), t, choose), rest, choose)
  {
    hide Exec;
    RunConcat(db, [s, t], rest, choose);
    assert [s, t][1..] == [t] && [t][1..] == [];
    assert Run(db, [s, t], choose) == Run(Exec(db, s, choose), [t], choose);
  }

  // ---------------------------------------------------------------------------------------
  // Facts, filtered

  lemma {:induction false} FactsAlike(d: Dimension, xs: seq<Row>, ys: seq<Row>, f: Row -> bool, g: Row -> bool)
    requires |xs| == |ys|
    requires forall i :: 0 <= i < |xs| ==> f(xs[i]) == g(ys[i]) && (f(xs[i]) ==> Facts(d, xs[i]) == Facts(d, ys[i]))
    ensures FactsWhere(d, xs, f) == FactsWhere(d, ys, g)
    decreases xs
  {
    hide Facts;
    if xs != [] {
      FactsAlike(d, xs[1..], ys[1..], f, g);
    }
  }

  lemma {:induction false} FactsConcat(d: Dimension, xs: seq<Row>, ys: seq<Row>, f: Row -> bool)
    ensures FactsWhere(d, xs + ys, f) == FactsWhere(d, xs, f) + FactsWhere(d, ys, f)
    decreases xs
  {
    hide Facts;
    if xs == [] {
      assert xs + ys == ys;
    } else {
      assert (xs + ys)[1..] == xs[1..] + ys;
      FactsConcat(d, xs[1..], ys, f);
    }
  }

  lemma {:induction false} FactsFiltered(d: Dimension, xs: seq<Row>, f: Row -> bool, g: Row -> bool)
    requires forall x :: x in xs && f(x) ==> g(x)
    ensures FactsWhere(d, Filter(xs, f), g) == FactsWhere(d, xs, f)
    decreases xs
  {
    hide Facts;
    if xs != [] {
      FactsFiltered(d, xs[1..], f, g);
      FilterHead(xs, f);
    }
  }

  lemma {:induction false} FactsNone(d: Dimension, xs: seq<Row>, f: Row -> bool)
    requires forall x :: x in xs ==> !f(x)
    ensures FactsWhere(d, xs, f) == []
    decreases xs
  {
    hide Facts;
    if xs != [] {
      assert xs[0] in xs;
      FactsNone(d, xs[1..], f);
    }
  }

  lemma {:induction false} OthersExactly(cs: seq<Column>, v: Validity, c: Column)
    ensures c in OtherColumns(cs, v) <==> c in cs && c != v.from && c != v.to
  {
    if cs != [] {
      OthersExactly(cs[1..], v, c);
      assert c in cs <==> c == cs[0] || c in cs[1..];
    }
  }

  lemma NotValidity(d: Dimension)
    ensures d.v.from !in Others(d) && d.v.to !in Others(d)
  {
    OthersExactly(AllColumns(d.root.columns), d.v, d.v.from);
    OthersExactly(AllColumns(d.root.columns), d.v, d.v.to);
  }

  /** Retiring a row changes nothing but its valid-to column. */
  lemma RetiringKeeps(d: Dimension, b: int, staged: seq<Row>, r: Row)
    requires Proper(d)
    ensures
      var r' := Retiring(d, b, staged)(r);
      && Facts(d, r') == Facts(d, r) && Get(r', d.v.from) == Get(r, d.v.from) && Get(r', d.v.hash) == Get(r, d.v.hash)
      && Get(r', d.v.to) == if Leaves(d, staged, r) then Num(b) else Get(r, d.v.to)
  {
    hide Leaves, Others;
    NotValidity(d);
  }

  lemma StampingGives(d: Dimension, b: int, s: Row)
    requires Proper(d)
    ensures
      var r := Stamping(d, b)(s);
      && Facts(d, r) == Facts(d, s) && Get(r, d.v.from) == Num(b) && Get(r, d.v.to) == d.active
      && Get(r, d.v.hash) == Get(s, d.v.hash)
  {
    hide Others;
    NotValidity(d);
    var stamps := [(d.v.from, Num(b)), (d.v.to, d.active)];
    assert stamps[..1] == [(d.v.from, Num(b))] && stamps[..1][..0] == [];
    assert Stamped(s, Others(d), stamps[..1][..0]) == Facts(d, s);
    var r1 := Stamped(s, Others(d), stamps[..1]);
    assert r1 == Facts(d, s)[d.v.from := Num(b)];
    assert Stamping(d, b)(s) == r1[d.v.to := d.active];
  }

  // ---------------------------------------------------------------------------------------
  // What one load means

  /** The active rows that a load does not retire. */
  function Staying(d: Dimension, staged: seq<Row>): Row -> bool {
    (r: Row) => Get(r, d.v.to) == d.active && !Leaves(d, staged, r)
  }

  /** Loading does not change what the table says about any earlier time. */
  lemma PastKept(d: Dimension, b0: int, b: int, staged: seq<Row>, rows: seq<Row>, t: int)
    requires Proper(d) && Timely(d, b0, rows) && b0 < b && Num(b) != d.active && t < b
    ensures View(d, AfterLoad(d, b, staged, rows), t) == View(d, rows, t)
  {
    hide Proper, Leaves, Facts, Get;
    var retired := Retired(d, b, staged, rows);
    var added := Added(d, b, staged, retired);
    forall i | 0 <= i < |rows|
      ensures InForceAt(d, t)(retired[i]) == InForceAt(d, t)(rows[i]) && Facts(d, retired[i]) == Facts(d, rows[i])
    {
      assert rows[i] in rows;
      RetiringKeeps(d, b, staged, rows[i]);
      LeavesActive(d, staged, rows[i]);
    }
    forall r | r in added ensures !InForceAt(d, t)(r) {
      AddedIsStamped(d, b, staged, retired, r);
    }
    FactsAlike(d, retired, rows, InForceAt(d, t), InForceAt(d, t));
    FactsNone(d, added, InForceAt(d, t));
    FactsConcat(d, retired, added, InForceAt(d, t));
  }

  lemma LeavesActive(d: Dimension, staged: seq<Row>, r: Row)
    ensures Leaves(d, staged, r) ==> Get(r, d.v.to) == d.active
  {
  }

  lemma AddedIsStamped(d: Dimension, b: int, staged: seq<Row>, rows: seq<Row>, r: Row)
    requires Proper(d) && r in Added(d, b, staged, rows)
    ensures exists s :: s in staged && Fresh(d, rows)(s) && r == Stamping(d, b)(s)
    ensures Get(r, d.v.from) == Num(b) && Get(r, d.v.to) == d.active
  {
    hide Proper, Fresh, Stamping, Get;
    var picked := Filter(staged, Fresh(d, rows));
    var i :| 0 <= i < |picked| && Map(picked, Stamping(d, b))[i] == r;
    assert picked[i] in picked;
    StampingGives(d, b, picked[i]);
  }

  /** From its boundary on, what the table says is the case is what it says is the case now. */
  lemma NowIsPresent(d: Dimension, b: int, rows: seq<Row>, t: int)
    requires Timely(d, b, rows) && b <= t
    ensures View(d, rows, t) == Present(d, rows)
  {
    hide Facts;
    forall i | 0 <= i < |rows| ensures InForceAt(d, t)(rows[i]) == Current(d)(rows[i]) {
      assert rows[i] in rows && IsTimely(d, b, rows[i]);
    }
    FactsAlike(d, rows, rows, InForceAt(d, t), Current(d));
  }

  lemma StaysTimely(d: Dimension, b0: int, b: int, staged: seq<Row>, rows: seq<Row>)
    requires Proper(d) && Timely(d, b0, rows) && b0 < b
    ensures Timely(d, b, AfterLoad(d, b, staged, rows))
  {
    hide Proper, Leaves, Get;
    var retired := Retired(d, b, staged, rows);
    forall r | r in AfterLoad(d, b, staged, rows) ensures IsTimely(d, b, r) {
      if r in retired {
        var i :| 0 <= i < |retired| && retired[i] == r;
        assert rows[i] in rows && IsTimely(d, b0, rows[i]);
        RetiringKeeps(d, b, staged, rows[i]);
      } else {
        AddedIsStamped(d, b, staged, retired, r);
      }
    }
  }

  lemma StaysHashed(d: Dimension, b: int, staged: seq<Row>, rows: seq<Row>, meaning: Value -> Row)
    requires Proper(d) && Hashed(d, rows, meaning) && Hashed(d, staged, meaning)
    ensures Hashed(d, AfterLoad(d, b, staged, rows), meaning)
  {
    hide Proper, Leaves, Get, Facts, Stamping;
    var retired := Retired(d, b, staged, rows);
    forall r | r in AfterLoad(d, b, staged, rows) ensures Facts(d, r) == meaning(Get(r, d.v.hash)) {
      if r in retired {
        var i :| 0 <= i < |retired| && retired[i] == r;
        assert rows[i] in rows;
        RetiringKeeps(d, b, staged, rows[i]);
      } else {
        AddedIsStamped(d, b, staged, retired, r);
        var s :| s in staged && r == Stamping(d, b)(s);
        StampingGives(d, b, s);
      }
    }
  }

  /** The active rows after a load: those that stay, and the staged rows that are new. */
  lemma PresentAfter(d: Dimension, b: int, staged: seq<Row>, rows: seq<Row>)
    requires Proper(d) && Num(b) != d.active
    ensures Present(d, AfterLoad(d, b, staged, rows))
            == FactsWhere(d, rows, Staying(d, staged)) + FactsWhere(d, staged, Fresh(d, Retired(d, b, staged, rows)))
  {
    hide Proper, Leaves, Facts, Get, Fresh;
    var retired := Retired(d, b, staged, rows);
    var added, picked := Added(d, b, staged, retired), Filter(staged, Fresh(d, retired));
    forall i | 0 <= i < |rows|
      ensures Current(d)(retired[i]) == Staying(d, staged)(rows[i]) && Facts(d, retired[i]) == Facts(d, rows[i])
    {
      RetiringKeeps(d, b, staged, rows[i]);
    }
    FactsAlike(d, retired, rows, Current(d), Staying(d, staged));
    forall i | 0 <= i < |picked| ensures Current(d)(added[i]) && Facts(d, added[i]) == Facts(d, picked[i]) {
      StampingGives(d, b, picked[i]);
    }
    FactsAlike(d, added, picked, Current(d), (r: Row) => true);
    FactsFiltered(d, staged, Fresh(d, retired), (r: Row) => true);
    FactsConcat(d, retired, added, Current(d));
  }

  /** Whether a staged row is new, told from the rows before the load. */
  lemma FreshExactly(d: Dimension, b: int, staged: seq<Row>, rows: seq<Row>, s: Row)
    requires Proper(d) && Num(b) != d.active && s in staged
    ensures Fresh(d, Retired(d, b, staged, rows))(s)
            <==> !exists r :: r in rows && Staying(d, staged)(r) && Get(r, d.v.hash) == Get(s, d.v.hash)
  {
    hide Proper, Leaves, Get;
    var retired := Retired(d, b, staged, rows);
    forall i | 0 <= i < |rows|
      ensures Current(d)(retired[i]) == Staying(d, staged)(rows[i])
              && Get(retired[i], d.v.hash) == Get(rows[i], d.v.hash)
    {
      RetiringKeeps(d, b, staged, rows[i]);
    }
    if exists r :: r in rows && Staying(d, staged)(r) && Get(r, d.v.hash) == Get(s, d.v.hash) {
      var i :| 0 <= i < |rows| && Staying(d, staged)(rows[i]) && Get(rows[i], d.v.hash) == Get(s, d.v.hash);
      assert retired[i] in retired && retired[i] in Filter(retired, Current(d));
    }
  }

  lemma {:induction false} JoinedFacts(d: Dimension, r: Row, cs: seq<Column>)
    requires forall c :: c in cs ==> c in Others(d)
    ensures Joined(Facts(d, r), cs, d.render) == Joined(r, cs, d.render)
  {
    hide Others;
    if cs != [] {
      assert forall c :: c in cs[1..] ==> c in cs;
      JoinedFacts(d, r, cs[1..]);
    }
  }

  /** The merge key of a row is among its facts. */
  lemma KeyOfFacts(d: Dimension, r: Row)
    requires Proper(d) && MergeKeys(d.root) != []
    ensures Eval(KeyExpr(d), Facts(d, r)) == Eval(KeyExpr(d), r)
  {
    JoinedFacts(d, r, MergeKeys(d.root));
    assert MergeKeys(d.root)[0] in MergeKeys(d.root);
  }

  /** What the lookup of keys leaves alone: only with a merge key, and only rows whose key is not found. */
  predicate Spared(d: Dimension, staged: seq<Row>, r: Row) {
    MergeKeys(d.root) != [] && !KeyFound(d, staged, r)
  }

  lemma StaysOrIsStaged(d: Dimension, staged: seq<Row>, r: Row)
    requires Proper(d) && Get(r, d.v.to) == d.active && Get(r, d.v.hash) !in Keys(staged, d.v.hash)
    ensures Staying(d, staged)(r) <==> Spared(d, staged, Facts(d, r))
  {
    hide Proper, Facts, KeyExpr, KeyValues, Eval, Get, Keys;
    if MergeKeys(d.root) != [] {
      KeyOfFacts(d, r);
    }
  }

  lemma HashOfFacts(d: Dimension, r: Row)
    requires Proper(d)
    ensures Get(Facts(d, r), d.v.hash) == Get(r, d.v.hash)
  {
    hide Others;
  }

  /** A row with a staged hash has a staged key, as it says what the staged row says. */
  lemma StagedIsTouched(d: Dimension, staged: seq<Row>, r: Row, meaning: Value -> Row)
    requires Proper(d) && Hashed(d, staged, meaning) && Facts(d, r) == meaning(Get(r, d.v.hash))
    requires Get(r, d.v.hash) in Keys(staged, d.v.hash)
    ensures Facts(d, r) in StagedFacts(d, staged) && !Spared(d, staged, Facts(d, r))
  {
    hide Proper, Facts, KeyExpr, Eval, Get;
    var s :| s in staged && Get(s, d.v.hash) == Get(r, d.v.hash);
    assert Facts(d, s) == Facts(d, r);
    if MergeKeys(d.root) != [] {
      KeyOfFacts(d, s);
    }
  }

  /** What the lookup leaves of a snapshot, and what is staged. */
  function Reloaded(d: Dimension, before: set<Row>, staged: seq<Row>): set<Row> {
    (set r | r in before && Spared(d, staged, r)) + AsSet(StagedFacts(d, staged))
  }

  lemma PresentIsReloaded(d: Dimension, b: int, staged: seq<Row>, rows: seq<Row>, meaning: Value -> Row)
    requires Proper(d) && Num(b) != d.active && Hashed(d, rows, meaning) && Hashed(d, staged, meaning)
    ensures AsSet(Present(d, AfterLoad(d, b, staged, rows))) == Reloaded(d, AsSet(Present(d, rows)), staged)
  {
    hide Proper, Facts, Leaves, Fresh, Spared, Get, Retired, AfterLoad;
    PresentAfter(d, b, staged, rows);
    var after := Present(d, AfterLoad(d, b, staged, rows));
    forall c | c in after ensures c in Reloaded(d, AsSet(Present(d, rows)), staged) {
      if c in FactsWhere(d, rows, Staying(d, staged)) {
        var r :| r in rows && Staying(d, staged)(r) && Facts(d, r) == c;
        StaysAccounted(d, staged, r, meaning);
      }
    }
    forall c | c in Reloaded(d, AsSet(Present(d, rows)), staged) ensures c in after {
      if c in StagedFacts(d, staged) {
        var s :| s in staged && Facts(d, s) == c;
        StagedIsPresent(d, b, staged, rows, s, meaning);
      } else {
        var r :| r in rows && Current(d)(r) && Facts(d, r) == c;
        StaysAccounted(d, staged, r, meaning);
      }
    }
  }

  lemma StaysAccounted(d: Dimension, staged: seq<Row>, r: Row, meaning: Value -> Row)
    requires Proper(d) && Current(d)(r) && Facts(d, r) == meaning(Get(r, d.v.hash)) && Hashed(d, staged, meaning)
    ensures Staying(d, staged)(r) <==> Spared(d, staged, Facts(d, r)) || Facts(d, r) in StagedFacts(d, staged)
  {
    hide Proper, Facts, Spared;
    StagedHash(d, staged, r);
    if Get(r, d.v.hash) in Keys(staged, d.v.hash) {
      StagedIsTouched(d, staged, r, meaning);
    } else {
      StaysOrIsStaged(d, staged, r);
    }
  }

  lemma StagedHash(d: Dimension, staged: seq<Row>, r: Row)
    requires Proper(d)
    ensures Facts(d, r) in StagedFacts(d, staged) ==> Get(r, d.v.hash) in Keys(staged, d.v.hash)
  {
    hide Proper, Facts;
    if Facts(d, r) in StagedFacts(d, staged) {
      var s :| s in staged && Facts(d, s) == Facts(d, r);
      HashOfFacts(d, s);
      HashOfFacts(d, r);
    }
  }

  lemma StagedIsPresent(d: Dimension, b: int, staged: seq<Row>, rows: seq<Row>, s: Row, meaning: Value -> Row)
    requires Proper(d) && Num(b) != d.active && Hashed(d, rows, meaning) && Hashed(d, staged, meaning) && s in staged
    ensures Facts(d, s) in FactsWhere(d, rows, Staying(d, staged))
                           + FactsWhere(d, staged, Fresh(d, Retired(d, b, staged, rows)))
  {
    hide Proper, Facts, Leaves, Fresh, Retired;
    FreshExactly(d, b, staged, rows, s);
    if !Fresh(d, Retired(d, b, staged, rows))(s) {
      var r :| r in rows && Staying(d, staged)(r) && Get(r, d.v.hash) == Get(s, d.v.hash);
      assert Facts(d, r) == Facts(d, s);
    }
  }

  // ---------------------------------------------------------------------------------------
  // Finding keys

  /** The load brings a key that reads like that of `r`, but not that key. */
  ghost predicate MixedUp(d: Dimension, staged: seq<Row>, r: Row) {
    KeyFound(d, staged, r) && !KeyStaged(d, staged, r)
  }

  ghost predicate MixesUp(d: Dimension, staged: seq<Row>, snapshot: set<Row>) {
    exists r :: r in snapshot && MixedUp(d, staged, r)
  }

  lemma {:induction false} JoinedOfKey(r: Row, s: Row, cs: seq<Column>, render: Value -> string)
    requires KeyOf(r, cs) == KeyOf(s, cs)
    ensures Joined(r, cs, render) == Joined(s, cs, render)
  {
    if cs != [] {
      assert KeyOf(r, cs)[0] == KeyOf(s, cs)[0];
      forall i | 0 <= i < |cs[1..]| ensures KeyOf(r, cs[1..])[i] == KeyOf(s, cs[1..])[i] {
        assert KeyOf(r, cs)[i + 1] == KeyOf(s, cs)[i + 1];
      }
      JoinedOfKey(r, s, cs[1..], render);
    }
  }

  /** A key that is staged is found; without a merge key or with a single one, no other is. */
  lemma StagedIsFound(d: Dimension, staged: seq<Row>, r: Row)
    ensures KeyStaged(d, staged, r) ==> KeyFound(d, staged, r)
    ensures |MergeKeys(d.root)| <= 1 && KeyFound(d, staged, r) ==> KeyStaged(d, staged, r)
  {
    hide Joined, KeyOf, MergeKeys;
    var mks := MergeKeys(d.root);
    if KeyStaged(d, staged, r) {
      var s :| s in staged && KeyOf(s, mks) == KeyOf(r, mks);
      JoinedOfKey(s, r, mks, d.render);
      SingleKey(s, r, mks);
      assert Eval(KeyExpr(d), s) in KeyValues(KeyExpr(d), staged);
    } else if |mks| <= 1 && KeyFound(d, staged, r) {
      var s :| s in staged && Eval(KeyExpr(d), s) == Eval(KeyExpr(d), r);
      SingleKey(s, r, mks);
    }
  }

  lemma SingleKey(s: Row, r: Row, cs: seq<Column>)
    ensures |cs| == 1 ==> (KeyOf(s, cs) == KeyOf(r, cs) <==> Get(s, cs[0]) == Get(r, cs[0]))
    ensures |cs| == 0 ==> KeyOf(s, cs) == KeyOf(r, cs)
  {
    if |cs| == 1 {
      assert KeyOf(s, cs) == [Get(s, cs[0])] && KeyOf(r, cs) == [Get(r, cs[0])];
    }
  }

  /** The whole merge key of a row is among its facts, so what is staged has its key staged. */
  lemma StagedHasKey(d: Dimension, staged: seq<Row>, r: Row)
    requires Proper(d) && r in StagedFacts(d, staged)
    ensures KeyStaged(d, staged, r)
  {
    hide Proper;
    var mks := MergeKeys(d.root);
    var s :| s in staged && Facts(d, s) == r;
    KeysAreFacts(d);
    forall i | 0 <= i < |mks| ensures KeyOf(s, mks)[i] == KeyOf(r, mks)[i] {
      assert mks[i] in mks && Get(r, mks[i]) == Get(s, mks[i]);
    }
    assert KeyOf(s, mks) == KeyOf(r, mks);
  }

  lemma KeysAreFacts(d: Dimension)
    requires Proper(d)
    ensures forall k :: k in MergeKeys(d.root) ==> k in Others(d)
  {
  }

  /** The snapshot after a load is what the load should make of the snapshot before it, if and only if
      no row of that snapshot is taken for one whose key the load brings. */
  lemma PresentIsLoaded(d: Dimension, b: int, staged: seq<Row>, rows: seq<Row>, meaning: Value -> Row)
    requires Proper(d) && Num(b) != d.active && Hashed(d, rows, meaning) && Hashed(d, staged, meaning)
    ensures AsSet(Present(d, AfterLoad(d, b, staged, rows))) == Loaded(d, AsSet(Present(d, rows)), staged)
            <==> !MixesUp(d, staged, AsSet(Present(d, rows)))
  {
    hide Proper, AfterLoad, KeyFound, KeyStaged, Present, MergeKeys, StagedFacts, Facts;
    PresentIsReloaded(d, b, staged, rows, meaning);
    var before := AsSet(Present(d, rows));
    forall r ensures KeyStaged(d, staged, r) ==> KeyFound(d, staged, r) {
      StagedIsFound(d, staged, r);
    }
    if MixesUp(d, staged, before) {
      var r :| r in before && MixedUp(d, staged, r);
      StagedIsFound(d, staged, r);
      if r in StagedFacts(d, staged) {
        StagedHasKey(d, staged, r);
      }
      assert r in Loaded(d, before, staged) && r !in Reloaded(d, before, staged);
    } else {
      forall r | r in before ensures Spared(d, staged, r) <==> Untouched(d, staged, r) {
        assert !MixedUp(d, staged, r);
      }
    }
  }

  // ---------------------------------------------------------------------------------------
  // Runs of loads

  lemma {:induction false} RunIsSound(d: Dimension, db: Database, b0: int, loads: seq<Load>, choose: Chooser,
                                      meaning: Value -> Row)
    requires Proper(d) && InOrder(d, b0, loads, meaning)
    requires Timely(d, b0, RootRows(d, db)) && Hashed(d, RootRows(d, db), meaning)
    ensures
      var rows := RootRows(d, LoadAll(d, db, loads, choose));
      Timely(d, LastBoundary(b0, loads), rows) && Hashed(d, rows, meaning)
    decreases loads
  {
    hide Proper, Timely, Hashed, AfterLoad, RootRows, LoadInto;
    if loads != [] {
      var earlier, last := loads[..|loads| - 1], loads[|loads| - 1];
      RunIsSound(d, db, b0, earlier, choose, meaning);
      var db1 := LoadAll(d, db, earlier, choose);
      OpenPrepared(d, last, meaning);
      LoadRuns(d, db1, last, choose, meaning);
      StaysTimely(d, LastBoundary(b0, earlier), last.boundary, StagedOf(d, last), RootRows(d, db1));
      StaysHashed(d, last.boundary, StagedOf(d, last), RootRows(d, db1), meaning);
    }
  }

  lemma OpenPrepared(d: Dimension, load: Load, meaning: Value -> Row)
    requires Prepared(d, load, meaning)
    ensures Num(load.boundary) != d.active && Hashed(d, StagedOf(d, load), meaning)
  {
  }

  function LastBoundary(b0: int, loads: seq<Load>): int {
    if loads == [] then b0 else loads[|loads| - 1].boundary
  }

  /** The snapshot after all of these loads. */
  ghost function SnapshotNow(d: Dimension, before: set<Row>, loads: seq<Load>): set<Row>
    decreases loads
  {
    if loads == [] then before
    else Loaded(d, SnapshotNow(d, before, loads[..|loads| - 1]), StagedOf(d, loads[|loads| - 1]))
  }

  /** No load takes a row of the snapshot it finds for one whose key it brings. */
  ghost predicate NeverMixedUp(d: Dimension, before: set<Row>, loads: seq<Load>)
    decreases loads
  {
    loads != [] ==>
      var earlier, last := loads[..|loads| - 1], loads[|loads| - 1];
      NeverMixedUp(d, before, earlier) && !MixesUp(d, StagedOf(d, last), SnapshotNow(d, before, earlier))
  }

  /** From the last boundary on, the snapshot in force is the one after all loads. */
  lemma {:induction false} SnapshotSince(d: Dimension, before: seq<Row>, b0: int, loads: seq<Load>,
                                         meaning: Value -> Row, t: int)
    requires InOrder(d, b0, loads, meaning) && Timely(d, b0, before) && LastBoundary(b0, loads) <= t
    ensures Snapshot(d, before, loads, t) == SnapshotNow(d, AsSet(Present(d, before)), loads)
    decreases loads
  {
    hide Timely, View, Present, Loaded, StagedOf, Prepared;
    if loads == [] {
      NowIsPresent(d, b0, before, t);
    } else {
      assert LastBoundary(b0, loads[..|loads| - 1]) <= t;
      SnapshotSince(d, before, b0, loads[..|loads| - 1], meaning, t);
    }
  }

  ghost predicate Travels(d: Dimension, before: seq<Row>, loads: seq<Load>, after: seq<Row>) {
    forall t :: AsSet(View(d, after, t)) == Snapshot(d, before, loads, t)
  }

  /** Time travel: after any run of loads, selecting the rows with from <= t < to, or still active,
      gives exactly the snapshot in force at `t`, for every time `t`, if and only if no load takes a row
      of the snapshot it finds for one whose key it brings. */
  lemma {:induction false} TimeTravelExactly(d: Dimension, db: Database, b0: int, loads: seq<Load>, choose: Chooser,
                                             meaning: Value -> Row)
    requires Proper(d) && InOrder(d, b0, loads, meaning)
    requires Timely(d, b0, RootRows(d, db)) && Hashed(d, RootRows(d, db), meaning)
    ensures Travels(d, RootRows(d, db), loads, RootRows(d, LoadAll(d, db, loads, choose)))
            <==> NeverMixedUp(d, AsSet(Present(d, RootRows(d, db))), loads)
    decreases loads
  {
    hide Proper, Timely, Hashed, AfterLoad, RootRows, LoadInto, View, Present, StagedOf, Loaded, Travels, MixesUp,
         Prepared;
    var before := RootRows(d, db);
    if loads == [] {
      NothingLoaded(d, before);
    } else {
      var earlier, last := loads[..|loads| - 1], loads[|loads| - 1];
      InOrderFront(d, b0, loads, meaning);
      TimeTravelExactly(d, db, b0, earlier, choose, meaning);
      RunIsSound(d, db, b0, earlier, choose, meaning);
      LastComesLater(d, b0, loads, meaning);
      OpenPrepared(d, last, meaning);
      LoadRuns(d, LoadAll(d, db, earlier, choose), last, choose, meaning);
      OneLoadTravels(d, before, b0, loads, RootRows(d, LoadAll(d, db, earlier, choose)), meaning);
    }
  }

  lemma LastComesLater(d: Dimension, b0: int, loads: seq<Load>, meaning: Value -> Row)
    requires InOrder(d, b0, loads, meaning) && loads != []
    ensures LastBoundary(b0, loads[..|loads| - 1]) < loads[|loads| - 1].boundary
  {
    hide Prepared;
  }

  lemma NothingLoaded(d: Dimension, before: seq<Row>)
    ensures Travels(d, before, [], before)
  {
  }

  lemma OneLoadTravels(d: Dimension, before: seq<Row>, b0: int, loads: seq<Load>, rows: seq<Row>, meaning: Value -> Row)
    requires Proper(d) && loads != [] && InOrder(d, b0, loads, meaning) && Timely(d, b0, before)
    requires
      var earlier, last := loads[..|loads| - 1], loads[|loads| - 1];
      var b1 := LastBoundary(b0, earlier);
      && Timely(d, b1, rows) && Hashed(d, rows, meaning) && Hashed(d, StagedOf(d, last), meaning)
      && b1 < last.boundary && Num(last.boundary) != d.active
    ensures
      var earlier, last := loads[..|loads| - 1], loads[|loads| - 1];
      var staged := StagedOf(d, last);
      Travels(d, before, loads, AfterLoad(d, last.boundary, staged, rows))
      <==> Travels(d, before, earlier, rows) && !MixesUp(d, staged, SnapshotNow(d, AsSet(Present(d, before)), earlier))
  {
    hide Proper, Timely, Hashed, AfterLoad, View, Present, StagedOf, Loaded, MixesUp, Prepared;
    var earlier, last := loads[..|loads| - 1], loads[|loads| - 1];
    var b1, b, staged := LastBoundary(b0, earlier), last.boundary, StagedOf(d, last);
    var after, now := AfterLoad(d, b, staged, rows), SnapshotNow(d, AsSet(Present(d, before)), earlier);
    InOrderFront(d, b0, loads, meaning);
    StaysTimely(d, b1, b, staged, rows);
    PresentIsLoaded(d, b, staged, rows, meaning);
    forall t
      ensures t < b ==>
           View(d, after, t) == View(d, rows, t) && Snapshot(d, before, loads, t) == Snapshot(d, before, earlier, t)
      ensures t >= b1 ==> View(d, rows, t) == Present(d, rows) && Snapshot(d, before, earlier, t) == now
      ensures t >= b ==>
                View(d, after, t) == Present(d, after) && Snapshot(d, before, loads, t) == Loaded(d, now, staged)
    {
      if t < b {
        PastKept(d, b1, b, staged, rows, t);
      }
      if t >= b1 {
        NowIsPresent(d, b1, rows, t);
        SnapshotSince(d, before, b0, earlier, meaning, t);
      }
      if t >= b {
        NowIsPresent(d, b, after, t);
      }
    }
    SamePast(d, before, loads, rows, after, b1, b, now);
  }

  /** Only what is so from the last boundary on is left to tell. */
  lemma SamePast(d: Dimension, before: seq<Row>, loads: seq<Load>, rows: seq<Row>, after: seq<Row>, b1: int, b: int,
                 now: set<Row>)
    requires loads != [] && b1 < b
    requires
      var earlier, staged := loads[..|loads| - 1], StagedOf(d, loads[|loads| - 1]);
      forall t ::
        && (t < b ==>
             View(d, after, t) == View(d, rows, t) && Snapshot(d, before, loads, t) == Snapshot(d, before, earlier, t))
        && (t >= b1 ==> View(d, rows, t) == Present(d, rows) && Snapshot(d, before, earlier, t) == now)
        && (t >= b ==>
             View(d, after, t) == Present(d, after) && Snapshot(d, before, loads, t) == Loaded(d, now, staged))
    ensures
      var earlier, staged := loads[..|loads| - 1], StagedOf(d, loads[|loads| - 1]);
      Travels(d, before, loads, after)
      <==> Travels(d, before, earlier, rows) && AsSet(Present(d, rows)) == now
           && AsSet(Present(d, after)) == Loaded(d, now, staged)
  {
    hide View, Present, Snapshot, StagedOf, Loaded, AsSet;
    var earlier := loads[..|loads| - 1];
    if Travels(d, before, loads, after) {
      assert AsSet(View(d, after, b1)) == Snapshot(d, before, loads, b1);
      assert AsSet(View(d, after, b)) == Snapshot(d, before, loads, b);
      forall t ensures AsSet(View(d, rows, t)) == Snapshot(d, before, earlier, t) {
        assert AsSet(View(d, after, t)) == Snapshot(d, before, loads, t);
      }
    }
  }

  /** Without a merge key, or with a single column, time travel always gives the snapshot in force. */
  lemma TimeTravel(d: Dimension, db: Database, b0: int, loads: seq<Load>, choose: Chooser, meaning: Value -> Row,
                   t: int)
    requires Proper(d) && InOrder(d, b0, loads, meaning) && |MergeKeys(d.root)| <= 1
    requires Timely(d, b0, RootRows(d, db)) && Hashed(d, RootRows(d, db), meaning)
    ensures AsSet(View(d, RootRows(d, LoadAll(d, db, loads, choose)), t)) == Snapshot(d, RootRows(d, db), loads, t)
  {
    hide Proper, InOrder, Timely, Hashed, RootRows, LoadAll, View, Present, NeverMixedUp, Snapshot, MergeKeys;
    SingleNeverMixed(d, AsSet(Present(d, RootRows(d, db))), loads);
    TimeTravelExactly(d, db, b0, loads, choose, meaning);
  }

  lemma {:induction false} SingleNeverMixed(d: Dimension, before: set<Row>, loads: seq<Load>)
    requires |MergeKeys(d.root)| <= 1
    ensures NeverMixedUp(d, before, loads)
    decreases loads
  {
    hide KeyFound, KeyStaged, MergeKeys, SnapshotNow, StagedOf;
    if loads != [] {
      SingleNeverMixed(d, before, loads[..|loads| - 1]);
      NoneMixedUp(d, StagedOf(d, loads[|loads| - 1]), SnapshotNow(d, before, loads[..|loads| - 1]));
    }
  }

  lemma NoneMixedUp(d: Dimension, staged: seq<Row>, snapshot: set<Row>)
    requires |MergeKeys(d.root)| <= 1
    ensures !MixesUp(d, staged, snapshot)
  {
    hide KeyFound, KeyStaged, MergeKeys;
    if MixesUp(d, staged, snapshot) {
      var r :| r in snapshot && MixedUp(d, staged, r);
      StagedIsFound(d, staged, r);
    }
  }

  // ---------------------------------------------------------------------------------------
  // One version per hash

  lemma {:induction false} UniqueFewer(d: Dimension, rows: seq<Row>, f: Row -> bool, g: Row -> bool, c: Column)
    requires forall r :: r in rows && f(r) ==> g(r)
    requires Unique(FactsWhere(d, rows, g), c)
    ensures Unique(FactsWhere(d, rows, f), c)
    decreases rows
  {
    hide Facts, Get;
    if rows != [] {
      var more, fewer := FactsWhere(d, rows[1..], g), FactsWhere(d, rows[1..], f);
      assert rows[0] in rows && forall r :: r in rows[1..] ==> r in rows;
      assert Unique(more, c) by {
        if g(rows[0]) {
          UniqueTail(FactsWhere(d, rows, g), c);
        }
      }
      UniqueFewer(d, rows[1..], f, g, c);
      if f(rows[0]) {
        assert FactsWhere(d, rows, g) == [Facts(d, rows[0])] + more;
        forall x | x in fewer ensures Get(x, c) != Get(Facts(d, rows[0]), c) {
          assert x in more;
          HeadDiffers(Facts(d, rows[0]), more, c, x);
        }
        UniqueHead(Facts(d, rows[0]), fewer, c);
      }
    }
  }

  lemma UniqueTail(rows: seq<Row>, c: Column)
    requires Unique(rows, c) && rows != []
    ensures Unique(rows[1..], c)
  {
    hide Get;
  }

  lemma HeadDiffers(first: Row, rest: seq<Row>, c: Column, x: Row)
    requires Unique([first] + rest, c) && x in rest
    ensures Get(x, c) != Get(first, c)
  {
    hide Get;
    var i :| 0 <= i < |rest| && rest[i] == x;
    assert ([first] + rest)[i + 1] == x && ([first] + rest)[0] == first;
  }

  lemma UniqueHead(first: Row, rest: seq<Row>, c: Column)
    requires Unique(rest, c) && forall x :: x in rest ==> Get(x, c) != Get(first, c)
    ensures Unique([first] + rest, c)
  {
    hide Get;
  }

  /** Each hash keeps at most one active row exactly when no new hash is staged twice. */
  lemma OneActivePerHash(d: Dimension, b: int, staged: seq<Row>, rows: seq<Row>)
    requires Proper(d) && Num(b) != d.active && Unique(Present(d, rows), d.v.hash)
    ensures Unique(Present(d, AfterLoad(d, b, staged, rows)), d.v.hash)
            <==> Unique(FactsWhere(d, staged, Fresh(d, Retired(d, b, staged, rows))), d.v.hash)
  {
    hide Proper, Facts, Leaves, Fresh, Retired, AfterLoad, Unique, Get;
    PresentAfter(d, b, staged, rows);
    var isNew := Fresh(d, Retired(d, b, staged, rows));
    StayingIsCurrent(d, staged, rows);
    UniqueFewer(d, rows, Staying(d, staged), Current(d), d.v.hash);
    var stay, come := FactsWhere(d, rows, Staying(d, staged)), FactsWhere(d, staged, isNew);
    forall x, y | x in stay && y in come ensures Get(x, d.v.hash) != Get(y, d.v.hash) {
      var r :| r in rows && Staying(d, staged)(r) && Facts(d, r) == x;
      var s :| s in staged && isNew(s) && Facts(d, s) == y;
      FreshExactly(d, b, staged, rows, s);
      HashOfFacts(d, r);
      HashOfFacts(d, s);
    }
    UniqueConcat(stay, come, d.v.hash);
  }

  lemma StayingIsCurrent(d: Dimension, staged: seq<Row>, rows: seq<Row>)
    ensures forall r :: r in rows && Staying(d, staged)(r) ==> Current(d)(r)
  {
  }

  /** No load stages a hash twice. */
  ghost predicate Distinct(d: Dimension, loads: seq<Load>) {
    forall i :: 0 <= i < |loads| ==> Unique(StagedFacts(d, StagedOf(d, loads[i])), d.v.hash)
  }

  /** At every time of its history the table has at most one version of each hash in force, so that
      what it says is in force is a snapshot without repetitions. */
  lemma {:induction false} OneVersionPerHash(d: Dimension, db: Database, b0: int, loads: seq<Load>, choose: Chooser,
                                             meaning: Value -> Row, t: int)
    requires Proper(d) && InOrder(d, b0, loads, meaning) && Distinct(d, loads)
    requires Timely(d, b0, RootRows(d, db)) && Hashed(d, RootRows(d, db), meaning)
    requires Unique(View(d, RootRows(d, db), t), d.v.hash) && Unique(Present(d, RootRows(d, db)), d.v.hash)
    ensures
      var rows := RootRows(d, LoadAll(d, db, loads, choose));
      Unique(View(d, rows, t), d.v.hash) && Unique(Present(d, rows), d.v.hash)
    decreases loads
  {
    hide Proper, Timely, Hashed, AfterLoad, RootRows, LoadInto, View, Present, StagedOf, Unique, Fresh, Retired, Facts;
    if loads != [] {
      var earlier, last := loads[..|loads| - 1], loads[|loads| - 1];
      OneVersionPerHash(d, db, b0, earlier, choose, meaning, t);
      RunIsSound(d, db, b0, earlier, choose, meaning);
      var db1 := LoadAll(d, db, earlier, choose);
      var b, b1, staged, rows := last.boundary, LastBoundary(b0, earlier), StagedOf(d, last), RootRows(d, db1);
      OpenPrepared(d, last, meaning);
      LoadRuns(d, db1, last, choose, meaning);
      UniqueFewer(d, staged, Fresh(d, Retired(d, b, staged, rows)), (r: Row) => true, d.v.hash);
      OneActivePerHash(d, b, staged, rows);
      if t < b {
        PastKept(d, b1, b, staged, rows, t);
      } else {
        StaysTimely(d, b1, b, staged, rows);
        NowIsPresent(d, b, AfterLoad(d, b, staged, rows), t);
      }
    }
  }

  // ---------------------------------------------------------------------------------------
  // What no load ever changes

  /** `r` is what the row `was` has become: a retired row is as it was, an active one has at most
      got a valid-to date, the boundary of one of the loads. */
  ghost predicate Evolved(d: Dimension, loads: seq<Load>, was: Row, r: Row) {
    r == was || (Current(d)(was) && exists l :: l in loads && r == was[d.v.to := Num(l.boundary)])
  }

  lemma EvolvedOnce(d: Dimension, earlier: seq<Load>, last: Load, meaning: Value -> Row, was: Row, r: Row)
    requires Proper(d) && Evolved(d, earlier, was, r)
    requires forall l :: l in earlier ==> Num(l.boundary) != d.active
    ensures Evolved(d, earlier + [last], was, Retiring(d, last.boundary, StagedOf(d, last))(r))
  {
    hide Proper, KeyExpr, Eval, Keys, KeyValues, StagedOf;
    var loads := earlier + [last];
    assert last in loads;
    if r != was {
      var l :| l in earlier && r == was[d.v.to := Num(l.boundary)];
      assert l in loads && Get(r, d.v.to) == Num(l.boundary);
    }
  }

  /** No row is ever removed, a retired row never changes, and of an active one only the valid-to
      column does. */
  lemma {:induction false} HistoryIsKept(d: Dimension, db: Database, b0: int, loads: seq<Load>, choose: Chooser,
                                         meaning: Value -> Row)
    requires Proper(d) && InOrder(d, b0, loads, meaning)
    ensures
      var before, after := RootRows(d, db), RootRows(d, LoadAll(d, db, loads, choose));
      |before| <= |after| && forall i :: 0 <= i < |before| ==> Evolved(d, loads, before[i], after[i])
    decreases loads
  {
    hide Proper, RootRows, LoadInto, StagedOf, Evolved, Leaves, Added, Hashed;
    if loads == [] {
      assert forall r :: Evolved(d, loads, r, r) by {
        forall r ensures Evolved(d, loads, r, r) {
          EvolvedNot(d, loads, r);
        }
      }
    } else {
      var earlier, last := loads[..|loads| - 1], loads[|loads| - 1];
      HistoryIsKept(d, db, b0, earlier, choose, meaning);
      var db1 := LoadAll(d, db, earlier, choose);
      LoadRuns(d, db1, last, choose, meaning);
      assert loads == earlier + [last];
      var before, rows := RootRows(d, db), RootRows(d, db1);
      var after := AfterLoad(d, last.boundary, StagedOf(d, last), rows);
      forall i | 0 <= i < |before| ensures Evolved(d, loads, before[i], after[i]) {
        EvolvedOnce(d, earlier, last, meaning, before[i], rows[i]);
      }
    }
  }

  lemma EvolvedNot(d: Dimension, loads: seq<Load>, r: Row)
    ensures Evolved(d, loads, r, r)
  {
  }

  // ---------------------------------------------------------------------------------------
  // Nested tables

  ghost predicate LoadedInto(loads: seq<Load>, t: TableSchema, r: Row) {
    exists l, s :: l in loads && s in Rows(l.staged, Staging(t.name)) && r == Project(s, AllColumns(t.columns))
  }

  /** Nested tables only grow, by rows that were staged; their row keys are exactly those that were
      there before and those of all loads, each once if no load stages one twice. */
  lemma {:induction false} NestedRowsStay(d: Dimension, db: Database, b0: int, loads: seq<Load>, choose: Chooser,
                                          meaning: Value -> Row, t: TableSchema, rk: Column)
    requires Proper(d) && InOrder(d, b0, loads, meaning) && t in d.nested && RowKeyCol(t) == Ok(rk)
             && rk in AllColumns(t.columns)
    ensures
      var before, after := Rows(db, Dest(t.name)), Rows(LoadAll(d, db, loads, choose), Dest(t.name));
      && before <= after
      && (forall r :: r in after[|before|..] ==> LoadedInto(loads, t, r))
      && Keys(after, rk) == Keys(before, rk) + NestedKeys(loads, t, rk)
      && (Unique(before, rk) && (forall l :: l in loads ==> Unique(Rows(l.staged, Staging(t.name)), rk)) ==>
          Unique(after, rk))
    decreases loads
  {
    hide Proper, LoadInto, Prepared, InOrder, Get, Keys, RowKeyCol, Unique, LoadedInto, AllColumns, Rows, WithNew;
    if loads != [] {
      var earlier, last := loads[..|loads| - 1], loads[|loads| - 1];
      InOrderFront(d, b0, loads, meaning);
      NestedRowsStay(d, db, b0, earlier, choose, meaning, t, rk);
      var db1 := LoadAll(d, db, earlier, choose);
      LoadRuns(d, db1, last, choose, meaning);
      var before, rows, staged := Rows(db, Dest(t.name)), Rows(db1, Dest(t.name)), Rows(last.staged, Staging(t.name));
      assert loads == earlier + [last];
      KeysWithNew(t, rk, rows, staged);
      WithNewIsLoaded(earlier, last, t, rk, before, rows);
      if Unique(before, rk) && forall l :: l in loads ==> Unique(Rows(l.staged, Staging(t.name)), rk) {
        assert last in loads && forall l :: l in earlier ==> l in loads;
        UniqueWithNew(t, rk, rows, staged);
      }
    }
  }

  // ---------------------------------------------------------------------------------------
  // Nested rows and the versions of the root

  /** A load adds to the row hashes of the root table just those that it stages. */
  lemma HashesAfter(d: Dimension, b: int, staged: seq<Row>, rows: seq<Row>)
    requires Proper(d)
    ensures Keys(AfterLoad(d, b, staged, rows), d.v.hash) == Keys(rows, d.v.hash) + Keys(staged, d.v.hash)
  {
    hide Proper, Leaves, Get, Stamping, Retiring;
    var retired := Retired(d, b, staged, rows);
    var added, picked, h := Added(d, b, staged, retired), Filter(staged, Fresh(d, retired)), d.v.hash;
    forall i | 0 <= i < |rows| ensures Get(retired[i], h) == Get(rows[i], h) {
      RetiringKeeps(d, b, staged, rows[i]);
    }
    SameKeys(retired, rows, h);
    forall i | 0 <= i < |picked| ensures Get(added[i], h) == Get(picked[i], h) {
      StampingGives(d, b, picked[i]);
    }
    SameKeys(added, picked, h);
    forall s | s in staged ensures Get(s, h) in Keys(retired, h) + Keys(picked, h) {
      if s !in picked {
        var r :| r in Filter(retired, Current(d)) && Get(r, h) == Get(s, h);
        assert r in retired;
      }
    }
    assert Keys(retired + added, h) == Keys(retired, h) + Keys(added, h);
  }

  lemma SameKeys(xs: seq<Row>, ys: seq<Row>, c: Column)
    requires |xs| == |ys| && forall i :: 0 <= i < |xs| ==> Get(xs[i], c) == Get(ys[i], c)
    ensures Keys(xs, c) == Keys(ys, c)
  {
    hide Get;
    forall v | v in Keys(xs, c) ensures v in Keys(ys, c) {
      var i :| 0 <= i < |xs| && Get(xs[i], c) == v;
      assert ys[i] in ys;
    }
    forall v | v in Keys(ys, c) ensures v in Keys(xs, c) {
      var i :| 0 <= i < |ys| && Get(ys[i], c) == v;
      assert xs[i] in xs;
    }
  }

  /** The staged rows of the nested table refer by `g` to the hashes of staged root rows. */
  ghost predicate RefersToVersions(d: Dimension, load: Load, t: TableSchema, g: Column) {
    Keys(Rows(load.staged, Staging(t.name)), g) <= Keys(StagedOf(d, load), d.v.hash)
  }

  /** If the staged rows of a nested table refer to staged root rows by their hash, then after any run of
      loads all its rows refer to a version in the root table, which keeps all it ever had. */
  lemma {:induction false} NestedRowsReferToVersions(d: Dimension, db: Database, b0: int, loads: seq<Load>,
                                                     choose: Chooser, meaning: Value -> Row, t: TableSchema, g: Column)
    requires Proper(d) && InOrder(d, b0, loads, meaning) && t in d.nested && g in AllColumns(t.columns)
    requires Keys(Rows(db, Dest(t.name)), g) <= Keys(RootRows(d, db), d.v.hash)
    requires forall l :: l in loads ==> RefersToVersions(d, l, t, g)
    ensures
      var db' := LoadAll(d, db, loads, choose);
      Keys(Rows(db', Dest(t.name)), g) <= Keys(RootRows(d, db'), d.v.hash)
    decreases loads
  {
    hide Proper, LoadInto, Prepared, InOrder, Get, Keys, RowKeyCol, AllColumns, WithNew, RootRows, StagedOf, AfterLoad;
    if loads != [] {
      var earlier, last := loads[..|loads| - 1], loads[|loads| - 1];
      InOrderFront(d, b0, loads, meaning);
      assert last in loads && forall l :: l in earlier ==> l in loads;
      NestedRowsReferToVersions(d, db, b0, earlier, choose, meaning, t, g);
      var db1 := LoadAll(d, db, earlier, choose);
      LoadRuns(d, db1, last, choose, meaning);
      HashesAfter(d, last.boundary, StagedOf(d, last), RootRows(d, db1));
      NewKeysAreStaged(t, g, Rows(db1, Dest(t.name)), Rows(last.staged, Staging(t.name)));
    }
  }

  lemma NewKeysAreStaged(t: TableSchema, g: Column, rows: seq<Row>, staged: seq<Row>)
    requires g in AllColumns(t.columns)
    ensures Keys(WithNew(t, rows, staged), g) <= Keys(rows, g) + Keys(staged, g)
  {
    hide Get, RowKeyCol, AllColumns;
    if RowKeyCol(t).Ok? {
      var unseen := Filter(staged, LacksRowKey(rows, RowKeyCol(t).value));
      WithNewIs(t, rows, staged);
      KeysProjected(unseen, AllColumns(t.columns), g);
      var added := Map(unseen, (r: Row) => Project(r, AllColumns(t.columns)));
      assert Keys(rows + added, g) == Keys(rows, g) + Keys(added, g);
    }
  }

  lemma WithNewIsLoaded(earlier: seq<Load>, last: Load, t: TableSchema, rk: Column, before: seq<Row>, rows: seq<Row>)
    requires RowKeyCol(t) == Ok(rk)
    requires before <= rows && forall r :: r in rows[|before|..] ==> LoadedInto(earlier, t, r)
    ensures
      var after := WithNew(t, rows, Rows(last.staged, Staging(t.name)));
      && rows <= after
      && forall r :: r in after[|before|..] ==> LoadedInto(earlier + [last], t, r)
  {
    hide Get, RowKeyCol, AllColumns, Project, Rows;
    var staged := Rows(last.staged, Staging(t.name));
    WithNewIs(t, rows, staged);
    var picked := Filter(staged, LacksRowKey(rows, rk));
    var after := WithNew(t, rows, staged);
    forall r | r in after[|before|..] ensures LoadedInto(earlier + [last], t, r) {
      var i :| 0 <= i < |after[|before|..]| && after[|before|..][i] == r;
      if |before| + i < |rows| {
        assert rows[|before|..][i] == r && LoadedInto(earlier, t, rows[|before|..][i]);
        var l, s :| l in earlier && s in Rows(l.staged, Staging(t.name)) && r == Project(s, AllColumns(t.columns));
        assert l in earlier + [last];
      } else {
        var s := picked[|before| + i - |rows|];
        assert s in picked && s in staged && last in earlier + [last];
        assert r == Project(s, AllColumns(t.columns));
      }
    }
  }

  lemma UniqueWithNew(t: TableSchema, rk: Column, rows: seq<Row>, staged: seq<Row>)
    requires RowKeyCol(t) == Ok(rk) && rk in AllColumns(t.columns)
    requires Unique(rows, rk) && Unique(staged, rk)
    ensures Unique(WithNew(t, rows, staged), rk)
  {
    hide RowKeyCol, AllColumns;
    WithNewIs(t, rows, staged);
    var picked := Filter(staged, LacksRowKey(rows, rk));
    UniqueFiltered(staged, rk, LacksRowKey(rows, rk));
    var added := Map(picked, (r: Row) => Project(r, AllColumns(t.columns)));
    forall i | 0 <= i < |added| ensures Get(added[i], rk) == Get(picked[i], rk)
      && Get(added[i], rk) !in Keys(rows, rk) {
      assert picked[i] in picked;
    }
    UniqueConcat(rows, added, rk);
  }

  lemma InOrderFront(d: Dimension, b0: int, loads: seq<Load>, meaning: Value -> Row)
    requires InOrder(d, b0, loads, meaning) && loads != []
    ensures InOrder(d, b0, loads[..|loads| - 1], meaning) && Prepared(d, loads[|loads| - 1], meaning)
  {
    hide Prepared;
  }

  function NestedKeys(loads: seq<Load>, t: TableSchema, rk: Column): set<Value> {
    if loads == [] then {}
    else NestedKeys(loads[..|loads| - 1], t, rk) + Keys(Rows(loads[|loads| - 1].staged, Staging(t.name)), rk)
  }

  lemma KeysWithNew(t: TableSchema, rk: Column, rows: seq<Row>, staged: seq<Row>)
    requires RowKeyCol(t) == Ok(rk) && rk in AllColumns(t.columns)
    ensures Keys(WithNew(t, rows, staged), rk) == Keys(rows, rk) + Keys(staged, rk)
  {
    hide Get, RowKeyCol, AllColumns;
    var unseen := Filter(staged, LacksRowKey(rows, rk));
    WithNewIs(t, rows, staged);
    KeysProjected(unseen, AllColumns(t.columns), rk);
    var added := Map(unseen, (r: Row) => Project(r, AllColumns(t.columns)));
    assert Keys(WithNew(t, rows, staged), rk) == Keys(rows, rk) + Keys(added, rk);
    forall s | s in staged ensures Get(s, rk) in Keys(rows, rk) + Keys(unseen, rk) {
      if Get(s, rk) !in Keys(rows, rk) {
        assert s in unseen;
      }
    }
  }

  // ---------------------------------------------------------------------------------------
  // Compound merge keys

  /** A load can retire a row whose merge key it does not bring: ("a", "bc") reads like ("ab", "c"), where
      the text of a text is that text. */
  lemma LoadMixesKeysUp(d: Dimension, a: Column, b: Column)
    requires MergeKeys(d.root) == [a, b] && a != b && d.v.hash != a && d.v.hash != b && d.v.to != a && d.v.to != b
    requires d.v.to != d.v.hash && forall x :: d.render(Text(x)) == x
    ensures
      var r: Row := map[a := Text("a"), b := Text("bc"), d.v.hash := Num(1), d.v.to := d.active];
      var s: Row := map[a := Text("ab"), b := Text("c"), d.v.hash := Num(2)];
      Leaves(d, [s], r) && MixedUp(d, [s], r)
  {
    hide MergeKeys, KeyOf;
    var r: Row := map[a := Text("a"), b := Text("bc"), d.v.hash := Num(1), d.v.to := d.active];
    var s: Row := map[a := Text("ab"), b := Text("c"), d.v.hash := Num(2)];
    JoinedTwo(r, a, b, d.render);
    JoinedTwo(s, a, b, d.render);
    assert "a" + "bc" == "abc" == "ab" + "c";
    assert s in [s] && Eval(KeyExpr(d), s) == Text("abc") == Eval(KeyExpr(d), r);
    FirstOfKey(r, a, b);
    FirstOfKey(s, a, b);
    assert KeyOf(r, [a, b])[0] == Text("a") && KeyOf(s, [a, b])[0] == Text("ab");
  }

  lemma JoinedTwo(r: Row, a: Column, b: Column, render: Value -> string)
    ensures Joined(r, [a, b], render) == Rendered(Get(r, a), render) + Rendered(Get(r, b), render)
  {
    assert [a, b][1..] == [b] && [b][1..] == [];
    assert Joined(r, [b], render) == Rendered(Get(r, b), render) + Joined(r, [], render);
  }

  lemma FirstOfKey(r: Row, a: Column, b: Column)
    ensures |KeyOf(r, [a, b])| == 2 && KeyOf(r, [a, b])[0] == Get(r, a)
  {
  }
}
