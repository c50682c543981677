/**
  The merge jobs as compilers: from the hints of a chain of tables (a root table and its nested
  tables) to the statements that merge staged rows into the destination.
*/
module SqlMerge {
  import opened Options
  import opened SqlModel

  datatype Hint =
    | PrimaryKey | MergeKey | RowKey | UniqueKey | RootKey | ParentKey | HardDelete
    | ValidFrom | ValidTo | RowVersion

  /** `active` is the hint that says which valid-to marks an active row: a date, or NULL. */
  datatype ColumnSchema =
    ColumnSchema(name: Column, hints: set<Hint>, isBool: bool, dedupSort: Option<SortOrder>, active: Option<Value>)

  /** `deduplicated` declares that the staged data has no duplicates to begin with; `boundary` is the
      hint for the time of a load. */
  datatype TableSchema =
    TableSchema(name: string, parent: Option<string>, columns: seq<ColumnSchema>, deduplicated: bool,
                boundary: Option<int>)

  datatype MergeError =
    | NoRowKey(table: string)
    | ManyPrimaryKeys(table: string)
    | NoRootKey(table: string)
    | NoVersionHints(table: string)
    | UnboundRowKey

  datatype Result<+T> = Ok(value: T) | Err(error: MergeError)

  ghost predicate DistinctNames(chain: seq<TableSchema>) {
    forall i, j :: 0 <= i < j < |chain| ==> chain[i].name != chain[j].name
  }

  // ---------------------------------------------------------------------------------------
  // Hints

  function ColumnsWith(columns: seq<ColumnSchema>, hint: Hint): seq<Column> {
    if columns == [] then []
    else (if hint in columns[0].hints then [columns[0].name] else []) + ColumnsWith(columns[1..], hint)
  }

  function AllColumns(columns: seq<ColumnSchema>): seq<Column> {
    Map(columns, (c: ColumnSchema) => c.name)
  }

  function FirstWith(columns: seq<ColumnSchema>, hint: Hint): Option<ColumnSchema> {
    if columns == [] then None
    else if hint in columns[0].hints then Some(columns[0])
    else FirstWith(columns[1..], hint)
  }

  function DedupSort(columns: seq<ColumnSchema>): Option<Sort> {
    if columns == [] then None
    else if columns[0].dedupSort.Some? then Some(Sort(columns[0].name, columns[0].dedupSort.value))
    else DedupSort(columns[1..])
  }

  /** The condition that a staged row is not marked as deleted, if there is a column to mark it. */
  function NotDeleted(t: TableSchema): Option<Cond> {
    match FirstWith(t.columns, HardDelete)
    case None => None
    case Some(c) =>
      Some(if c.isBool then Or(IsNull(Col(c.name)), Equals(Col(c.name), Flag(false))) else IsNull(Col(c.name)))
  }

  /** The condition that a staged row is marked as deleted. */
  function Deleted(t: TableSchema): Option<Cond> {
    match FirstWith(t.columns, HardDelete)
    case None => None
    case Some(c) =>
      Some(if c.isBool then Equals(Col(c.name), Flag(true)) else Not(IsNull(Col(c.name))))
  }

  function RowKeyCol(t: TableSchema): Result<Column> {
    match FirstWith(t.columns, RowKey)
    case Some(c) => Ok(c.name)
    case None =>
      match FirstWith(t.columns, UniqueKey)
      case Some(c) => Ok(c.name)
      case None =>
        var pks := ColumnsWith(t.columns, PrimaryKey);
        if |pks| == 1 then Ok(pks[0])
        else if |pks| > 1 then Err(ManyPrimaryKeys(t.name))
        else Err(NoRowKey(t.name))
  }

  function RootKeyCol(root: TableSchema, t: TableSchema): Result<Column> {
    match FirstWith(t.columns, RootKey)
    case Some(c) => Ok(c.name)
    case None =>
      if t.parent == Some(root.name) then
        match FirstWith(t.columns, ParentKey)
        case Some(c) => Ok(c.name)
        case None => Err(NoRootKey(t.name))
      else Err(NoRootKey(t.name))
  }

  function PrimaryKeys(t: TableSchema): seq<Column> {
    ColumnsWith(t.columns, PrimaryKey)
  }

  function MergeKeys(t: TableSchema): seq<Column> {
    ColumnsWith(t.columns, MergeKey)
  }

  function KeyClauses(primaryKeys: seq<Column>, mergeKeys: seq<Column>): seq<KeyClause> {
    var clauses := (if primaryKeys != [] then [primaryKeys] else []) + (if mergeKeys != [] then [mergeKeys] else []);
    if clauses == [] then [[]] else clauses
  }

  // ---------------------------------------------------------------------------------------
  // Delete-insert: the statements, part by part

  /** The statements that delete, and the row key and (last) root key columns found on the way. */
  datatype DeletePart = DeletePart(statements: seq<Statement>, rowKey: Option<Column>, rootKey: Option<Column>)

  function DeleteTemp(root: TableSchema): Table {
    Temp(root.name, "delete")
  }

  function InsertTemp(root: TableSchema): Table {
    Temp(root.name, "insert")
  }

  function DeleteListed(table: Table, column: Column, temp: Table, tempColumn: Column): Statement {
    Delete(table, In(Col(column), Subquery(Col(tempColumn), temp, Always)))
  }

  /** Deletion from the nested tables; fails on the first table without a root key. */
  function NestedDeletes(root: TableSchema, nested: seq<TableSchema>, rowKey: Column): Result<seq<Statement>>
    decreases nested
  {
    if nested == [] then Ok([])
    else
      var last := nested[|nested| - 1];
      match NestedDeletes(root, nested[..|nested| - 1], rowKey)
      case Err(e) => Err(e)
      case Ok(before) =>
        match RootKeyCol(root, last)
        case Err(e) => Err(e)
        case Ok(column) => Ok(before + [DeleteListed(Dest(last.name), column, DeleteTemp(root), rowKey)])
  }

  function LastRootKey(root: TableSchema, nested: seq<TableSchema>): Option<Column> {
    if nested == [] then None
    else match RootKeyCol(root, nested[|nested| - 1]) case Ok(c) => Some(c) case Err(_) => None
  }

  function Deletes(chain: seq<TableSchema>, tempForDelete: bool): Result<DeletePart>
    requires chain != []
  {
    var root, nested := chain[0], chain[1..];
    var pks, mks := PrimaryKeys(root), MergeKeys(root);
    if |pks| + |mks| == 0 then Ok(DeletePart([], None, None))
    else
      var clauses := KeyClauses(pks, mks);
      if nested == [] && !tempForDelete then
        Ok(DeletePart([DeleteMatched(Dest(root.name), Staging(root.name), clauses)], None, None))
      else
        match RowKeyCol(root)
        case Err(e) => Err(e)
        case Ok(rowKey) =>
          match NestedDeletes(root, nested, rowKey)
          case Err(e) => Err(e)
          case Ok(deletes) =>
            Ok(DeletePart(
              [CreateTemp(DeleteTemp(root), SelectMatched(rowKey, Dest(root.name), Staging(root.name), clauses))]
                + deletes
                + [DeleteListed(Dest(root.name), rowKey, DeleteTemp(root), rowKey)],
              Some(rowKey), LastRootKey(root, nested)))
  }

  function DedupQuery(t: TableSchema, columns: seq<Column>, from: Table, cond: Cond): Query {
    if t.deduplicated then SelectRows(columns, from, cond)
    else SelectDedup(columns, from, PrimaryKeys(t), DedupSort(t.columns), cond)
  }

  /** The row keys of the staged root rows to insert, collected when nested tables need them. */
  function InsertTemps(chain: seq<TableSchema>, rowKey: Option<Column>): Result<seq<Statement>>
    requires chain != []
  {
    var root := chain[0];
    var pks, notDeleted := PrimaryKeys(root), NotDeleted(root);
    if |chain| == 1 || (pks == [] && notDeleted.None?) then Ok([])
    else if rowKey.None? then Err(UnboundRowKey)
    else
      var cond := if notDeleted.Some? then notDeleted.value else Always;
      var query := if pks != [] then DedupQuery(root, [rowKey.value], Staging(root.name), cond)
                   else SelectRows([rowKey.value], Staging(root.name), cond);
      Ok([CreateTemp(InsertTemp(root), query)])
  }

  /** Which staged rows of `t` are inserted. */
  function InsertCond(chain: seq<TableSchema>, t: TableSchema, rowKey: Option<Column>, rootKey: Option<Column>): Cond
    requires chain != []
  {
    var root := chain[0];
    var pks, notDeleted := PrimaryKeys(root), NotDeleted(root);
    if (pks != [] && |chain| > 1) || (pks == [] && t.parent.Some? && notDeleted.Some?) then
      var column := if t.parent.Some? then rootKey else rowKey;
      In(Col(if column.Some? then column.value else ""),
         Subquery(Col(if rowKey.Some? then rowKey.value else ""), InsertTemp(root), Always))
    else if notDeleted.Some? then notDeleted.value
    else Always
  }

  function InsertFor(chain: seq<TableSchema>, t: TableSchema, rowKey: Option<Column>,
                     rootKey: Option<Column>): Statement
    requires chain != []
  {
    var columns := AllColumns(t.columns);
    var cond := InsertCond(chain, t, rowKey, rootKey);
    var query := if PrimaryKeys(chain[0]) != [] && |chain| == 1
                 then DedupQuery(chain[0], columns, Staging(t.name), cond)
                 else SelectRows(columns, Staging(t.name), cond);
    Insert(Dest(t.name), columns, query)
  }

  function Inserts(chain: seq<TableSchema>, upTo: nat, rowKey: Option<Column>,
                   rootKey: Option<Column>): (r: seq<Statement>)
    requires chain != [] && upTo <= |chain|
    ensures |r| == upTo
  {
    if upTo == 0 then []
    else Inserts(chain, upTo - 1, rowKey, rootKey) + [InsertFor(chain, chain[upTo - 1], rowKey, rootKey)]
  }

  function MergeSql(chain: seq<TableSchema>, tempForDelete: bool): Result<seq<Statement>>
    requires chain != []
  {
    match Deletes(chain, tempForDelete)
    case Err(e) => Err(e)
    case Ok(d) =>
      match InsertTemps(chain, d.rowKey)
      case Err(e) => Err(e)
      case Ok(temps) => Ok(d.statements + temps + Inserts(chain, |chain|, d.rowKey, d.rootKey))
  }

  /** `tempForDelete`: the destination does not support correlated subqueries in a delete. */
  method GenMergeSql(chain: seq<TableSchema>, tempForDelete: bool) returns (r: Result<seq<Statement>>)
    requires chain != []
    ensures r == MergeSql(chain, tempForDelete)
  {
    hide RowKeyCol, RootKeyCol, NotDeleted, KeyClauses, ColumnsWith, AllColumns, InsertCond, InsertFor, DedupQuery,
         NestedDeletes, LastRootKey, DeleteListed, DeleteTemp;
    var sql: seq<Statement> := [];
    var root := chain[0];
    var primaryKeys, mergeKeys := ColumnsWith(root.columns, PrimaryKey), ColumnsWith(root.columns, MergeKey);
    // nothing can be deleted without a key
    var appendFallback := |primaryKeys| + |mergeKeys| == 0;
    var rowKey: Option<Column> := None;
    var rootKey: Option<Column> := None;

    if !appendFallback {
      var keyClauses := KeyClauses(primaryKeys, mergeKeys);
      if |chain| == 1 && !tempForDelete {
        sql := [DeleteMatched(Dest(root.name), Staging(root.name), keyClauses)];
        assert Deletes(chain, tempForDelete) == Ok(DeletePart(sql, rowKey, rootKey));
      } else {
        var column := RowKeyCol(root);
        if column.Err? {
          return Err(column.error);
        }
        rowKey := Some(column.value);
        sql := [CreateTemp(DeleteTemp(root), SelectMatched(column.value, Dest(root.name), Staging(root.name),
                                                           keyClauses))];
        ghost var created := sql;
        ghost var nested := chain[1..];
        NoDeletes(root, column.value);
        // nested rows go before their roots
        var i := 1;
        while i < |chain|
          invariant 1 <= i <= |chain|
          invariant NestedDeletes(root, nested[..i - 1], column.value).Ok?
          invariant sql == created + NestedDeletes(root, nested[..i - 1], column.value).value
          invariant rootKey == LastRootKey(root, nested[..i - 1])
        {
          assert nested[..i][..i - 1] == nested[..i - 1] && nested[..i][i - 1] == chain[i];
          var rootColumn := RootKeyCol(root, chain[i]);
          if rootColumn.Err? {
            NestedDeletesFail(root, nested, i, column.value);
            return Err(rootColumn.error);
          }
          NestedDeletesMore(root, nested[..i], column.value);
          rootKey := Some(rootColumn.value);
          sql := sql + [DeleteListed(Dest(chain[i].name), rootColumn.value, DeleteTemp(root), column.value)];
          i := i + 1;
        }
        assert nested[..|chain| - 1] == nested;
        sql := sql + [DeleteListed(Dest(root.name), column.value, DeleteTemp(root), column.value)];
        assert Deletes(chain, tempForDelete) == Ok(DeletePart(sql, rowKey, rootKey));
      }
    }
    assert Deletes(chain, tempForDelete) == Ok(DeletePart(sql, rowKey, rootKey));
    ghost var deletes := sql;

    var notDeleted := NotDeleted(root);
    if |chain| > 1 {
      if |primaryKeys| > 0 || notDeleted.Some? {
        if rowKey.None? {
          return Err(UnboundRowKey);
        }
        var cond := if notDeleted.Some? then notDeleted.value else Always;
        var query := if |primaryKeys| > 0 then DedupQuery(root, [rowKey.value], Staging(root.name), cond)
                     else SelectRows([rowKey.value], Staging(root.name), cond);
        sql := sql + [CreateTemp(InsertTemp(root), query)];
      }
    }
    assert InsertTemps(chain, rowKey).Ok? && sql == deletes + InsertTemps(chain, rowKey).value;
    ghost var prepared := sql;

    // what was staged is copied
    var i := 0;
    while i < |chain|
      invariant 0 <= i <= |chain|
      invariant sql == prepared + Inserts(chain, i, rowKey, rootKey)
    {
      sql := sql + [InsertFor(chain, chain[i], rowKey, rootKey)];
      i := i + 1;
    }
    return Ok(sql);
  }

  lemma NoDeletes(root: TableSchema, rowKey: Column)
    ensures NestedDeletes(root, [], rowKey) == Ok([]) && LastRootKey(root, []) == None
  {
  }

  lemma NestedDeletesMore(root: TableSchema, nested: seq<TableSchema>, rowKey: Column)
    requires nested != [] && NestedDeletes(root, nested[..|nested| - 1], rowKey).Ok?
    requires RootKeyCol(root, nested[|nested| - 1]).Ok?
    ensures
      var last := nested[|nested| - 1];
      var own := RootKeyCol(root, last).value;
      && NestedDeletes(root, nested, rowKey)
         == Ok(NestedDeletes(root, nested[..|nested| - 1], rowKey).value
               + [DeleteListed(Dest(last.name), own, DeleteTemp(root), rowKey)])
      && LastRootKey(root, nested) == Some(own)
  {
  }

  /** A table without a root key makes the whole generation fail, whatever follows it. */
  lemma {:induction false} NestedDeletesFail(root: TableSchema, nested: seq<TableSchema>, i: nat, rowKey: Column)
    requires 1 <= i <= |nested|
    requires NestedDeletes(root, nested[..i - 1], rowKey).Ok?
    requires RootKeyCol(root, nested[i - 1]).Err?
    ensures NestedDeletes(root, nested, rowKey) == Err(RootKeyCol(root, nested[i - 1]).error)
  {
    var n := |nested|;
    if i < n {
      assert nested[..n - 1][..i - 1] == nested[..i - 1];
      NestedDeletesFail(root, nested[..n - 1], i, rowKey);
    }
  }

  // ---------------------------------------------------------------------------------------
  // Upsert

  /** The statements for one nested table: drop elements that are gone, merge the staged ones, and
      drop those of roots marked as deleted. */
  function NestedUpsert(root: TableSchema, t: TableSchema, rk: Column, nrk: Column, g: Column): seq<Statement> {
    [Delete(Dest(t.name), And(In(Col(g), Subquery(Col(rk), Staging(root.name), Always)),
                              Not(In(Col(nrk), Subquery(Col(nrk), Staging(t.name), Always))))),
     Merge(Dest(t.name), Staging(t.name), [nrk], None, AllColumns(t.columns))]
    + match Deleted(root)
      case None => []
      case Some(deleted) => [Delete(Dest(t.name), In(Col(g), Subquery(Col(rk), Staging(root.name), deleted)))]
  }

  function NestedUpserts(root: TableSchema, nested: seq<TableSchema>, rk: Column): Result<seq<Statement>>
    decreases nested
  {
    if nested == [] then Ok([])
    else
      var last := nested[|nested| - 1];
      match NestedUpserts(root, nested[..|nested| - 1], rk)
      case Err(e) => Err(e)
      case Ok(before) =>
        match RowKeyCol(last)
        case Err(e) => Err(e)
        case Ok(nrk) =>
          match RootKeyCol(root, last)
          case Err(e) => Err(e)
          case Ok(g) => Ok(before + NestedUpsert(root, last, rk, nrk, g))
  }

  function RootUpsert(root: TableSchema): Statement {
    Merge(Dest(root.name), Staging(root.name), PrimaryKeys(root), Deleted(root), AllColumns(root.columns))
  }

  function UpsertSql(chain: seq<TableSchema>): Result<seq<Statement>>
    requires chain != []
  {
    var root, nested := chain[0], chain[1..];
    if nested == [] then Ok([RootUpsert(root)])
    else
      match RowKeyCol(root)
      case Err(e) => Err(e)
      case Ok(rk) =>
        match NestedUpserts(root, nested, rk)
        case Err(e) => Err(e)
        case Ok(stmts) => Ok([RootUpsert(root)] + stmts)
  }

  method GenUpsertSql(chain: seq<TableSchema>) returns (r: Result<seq<Statement>>)
    requires chain != []
    ensures r == UpsertSql(chain)
  {
    hide RowKeyCol, RootKeyCol, NestedUpserts, NestedUpsert, Deleted, AllColumns, ColumnsWith;
    var root := chain[0];
    var deleted := Deleted(root);
    var sql := [Merge(Dest(root.name), Staging(root.name), ColumnsWith(root.columns, PrimaryKey), deleted,
                      AllColumns(root.columns))];
    if |chain| > 1 {
      var rk := RowKeyCol(root);
      if rk.Err? {
        return Err(rk.error);
      }
      ghost var nested := chain[1..];
      NoUpserts(root, rk.value);
      var i := 1;
      while i < |chain|
        invariant 1 <= i <= |chain|
        invariant NestedUpserts(root, nested[..i - 1], rk.value).Ok?
        invariant sql == [RootUpsert(root)] + NestedUpserts(root, nested[..i - 1], rk.value).value
      {
        var t := chain[i];
        assert nested[..i][..i - 1] == nested[..i - 1] && nested[..i][i - 1] == t;
        var nrk := RowKeyCol(t);
        if nrk.Err? {
          NestedUpsertsFail(root, nested, i, rk.value);
          return Err(nrk.error);
        }
        var g := RootKeyCol(root, t);
        if g.Err? {
          NestedUpsertsFail(root, nested, i, rk.value);
          return Err(g.error);
        }
        // rows of staged roots that were not staged again
        var block := [Delete(Dest(t.name), And(In(Col(g.value), Subquery(Col(rk.value), Staging(root.name), Always)),
                                               Not(In(Col(nrk.value), Subquery(Col(nrk.value), Staging(t.name),
                                                   Always)))))];
        // staged rows replace those with their row key, or are added
        block := block + [Merge(Dest(t.name), Staging(t.name), [nrk.value], None, AllColumns(t.columns))];
        // rows of roots that are marked as deleted
        if deleted.Some? {
          block := block + [Delete(Dest(t.name), In(Col(g.value),
                                                    Subquery(Col(rk.value), Staging(root.name), deleted.value)))];
        }
        NestedUpsertIs(root, t, rk.value, nrk.value, g.value);
        assert block == NestedUpsert(root, t, rk.value, nrk.value, g.value);
        NestedUpsertsMore(root, nested[..i], rk.value);
        sql := sql + block;
        i := i + 1;
      }
      assert nested[..|chain| - 1] == nested;
    }
    return Ok(sql);
  }

  lemma NestedUpsertIs(root: TableSchema, t: TableSchema, rk: Column, nrk: Column, g: Column)
    ensures NestedUpsert(root, t, rk, nrk, g)
            == [Delete(Dest(t.name), And(In(Col(g), Subquery(Col(rk), Staging(root.name), Always)),
                                         Not(In(Col(nrk), Subquery(Col(nrk), Staging(t.name), Always)))))]
               + [Merge(Dest(t.name), Staging(t.name), [nrk], None, AllColumns(t.columns))]
               + if Deleted(root).None? then []
                 else [Delete(Dest(t.name), In(Col(g), Subquery(Col(rk), Staging(root.name), Deleted(root).value)))]
  {
  }

  lemma NoUpserts(root: TableSchema, rk: Column)
    ensures NestedUpserts(root, [], rk) == Ok([])
  {
  }

  lemma NestedUpsertsMore(root: TableSchema, nested: seq<TableSchema>, rk: Column)
    requires nested != [] && NestedUpserts(root, nested[..|nested| - 1], rk).Ok?
    requires RowKeyCol(nested[|nested| - 1]).Ok? && RootKeyCol(root, nested[|nested| - 1]).Ok?
    ensures
      var last := nested[|nested| - 1];
      NestedUpserts(root, nested, rk)
      == Ok(NestedUpserts(root, nested[..|nested| - 1], rk).value
            + NestedUpsert(root, last, rk, RowKeyCol(last).value, RootKeyCol(root, last).value))
  {
  }

  lemma {:induction false} NestedUpsertsFail(root: TableSchema, nested: seq<TableSchema>, i: nat, rk: Column)
    requires 1 <= i <= |nested|
    requires NestedUpserts(root, nested[..i - 1], rk).Ok?
    requires RowKeyCol(nested[i - 1]).Err? || RootKeyCol(root, nested[i - 1]).Err?
    ensures NestedUpserts(root, nested, rk) ==
            Err(if RowKeyCol(nested[i - 1]).Err? then RowKeyCol(nested[i - 1]).error
                else RootKeyCol(root, nested[i - 1]).error)
  {
    var n := |nested|;
    if i < n {
      assert nested[..n - 1][..i - 1] == nested[..i - 1];
      NestedUpsertsFail(root, nested[..n - 1], i, rk);
    }
  }

  // ---------------------------------------------------------------------------------------
  // Slowly changing dimensions (type 2)

  /** The validity columns and the row hash of a root table. */
  datatype Validity = Validity(from: Column, to: Column, hash: Column)

  function ValidityOf(t: TableSchema): Option<Validity> {
    match (FirstWith(t.columns, ValidFrom), FirstWith(t.columns, ValidTo), FirstWith(t.columns, RowVersion))
    case (Some(f), Some(t), Some(h)) => Some(Validity(f.name, t.name, h.name))
    case _ => None
  }

  /** The first hint for the valid-to of active rows. */
  function ActiveOf(columns: seq<ColumnSchema>): Option<Value> {
    if columns == [] then None
    else if columns[0].active.Some? then columns[0].active
    else ActiveOf(columns[1..])
  }

  /** The time of a load: as hinted, or when the load package was created. */
  function BoundaryOf(t: TableSchema, createdAt: int): int {
    if t.boundary.Some? then t.boundary.value else createdAt
  }

  /** The condition that a row is active; the active marker may be NULL or a date. */
  function IsActive(to: Column, active: Value): Cond {
    if active == Null then IsNull(Col(to)) else Equals(Col(to), active)
  }

  /** A single merge key column, or the concatenation of several. */
  function MergeKeyExpr(mergeKeys: seq<Column>, render: Value -> string): Expr {
    if |mergeKeys| == 1 then Col(mergeKeys[0]) else Concat(mergeKeys, render)
  }

  function Retire(root: TableSchema, v: Validity, boundary: Value, active: Value, render: Value -> string): Statement {
    var absent := And(IsActive(v.to, active), Not(In(Col(v.hash), Subquery(Col(v.hash), Staging(root.name), Always))));
    var key := MergeKeyExpr(MergeKeys(root), render);
    Update(Dest(root.name), v.to, boundary,
           if MergeKeys(root) == [] then absent
           else And(absent, In(key, Subquery(key, Staging(root.name), Always))))
  }

  function OtherColumns(cs: seq<Column>, v: Validity): seq<Column> {
    if cs == [] then []
    else (if cs[0] == v.from || cs[0] == v.to then [] else [cs[0]]) + OtherColumns(cs[1..], v)
  }

  function Activate(root: TableSchema, v: Validity, boundary: Value, active: Value): Statement {
    InsertStamped(Dest(root.name), OtherColumns(AllColumns(root.columns), v), [(v.from, boundary), (v.to, active)],
                  Staging(root.name),
                  Not(In(Col(v.hash), Subquery(Col(v.hash), Dest(root.name), IsActive(v.to, active)))))
  }

  function AddNew(t: TableSchema, rk: Column): Statement {
    Insert(Dest(t.name), AllColumns(t.columns),
           SelectRows(AllColumns(t.columns), Staging(t.name),
                      Not(In(Col(rk), Subquery(Col(rk), Dest(t.name), Always)))))
  }

  function NestedAdds(nested: seq<TableSchema>): Result<seq<Statement>>
    decreases nested
  {
    if nested == [] then Ok([])
    else
      match NestedAdds(nested[..|nested| - 1])
      case Err(e) => Err(e)
      case Ok(before) =>
        match RowKeyCol(nested[|nested| - 1])
        case Err(e) => Err(e)
        case Ok(rk) => Ok(before + [AddNew(nested[|nested| - 1], rk)])
  }

  /** The statements of one load, from the hints of the root table: where the validity columns, the row
      hash and the marker of active rows are. Without one of them there is nothing to generate. */
  function Scd2Sql(chain: seq<TableSchema>, createdAt: int, render: Value -> string): Result<seq<Statement>>
    requires chain != []
  {
    var root := chain[0];
    match (ValidityOf(root), ActiveOf(root.columns))
    case (Some(v), Some(active)) =>
      var boundary := Num(BoundaryOf(root, createdAt));
      (match NestedAdds(chain[1..])
       case Err(e) => Err(e)
       case Ok(adds) => Ok([Retire(root, v, boundary, active, render), Activate(root, v, boundary, active)] + adds))
    case _ => Err(NoVersionHints(root.name))
  }

  method GenScd2Sql(chain: seq<TableSchema>, createdAt: int, render: Value -> string)
    returns (r: Result<seq<Statement>>)
    requires chain != []
    ensures r == Scd2Sql(chain, createdAt, render)
  {
    hide NestedAdds, FirstWith, ColumnsWith, RowKeyCol, AddNew, Activate, ActiveOf;
    var root := chain[0];
    var from, to, hash := FirstWith(root.columns, ValidFrom), FirstWith(root.columns, ValidTo),
      FirstWith(root.columns, RowVersion);
    var marker := ActiveOf(root.columns);
    if from.None? || to.None? || hash.None? || marker.None? {
      return Err(NoVersionHints(root.name));
    }
    var v, active := Validity(from.value.name, to.value.name, hash.value.name), marker.value;
    var boundary := Num(if root.boundary.Some? then root.boundary.value else createdAt);
    assert ValidityOf(root) == Some(v) && boundary == Num(BoundaryOf(root, createdAt));
    // a merge key restricts what is retired to the keys that were staged
    var condition := And(IsActive(v.to, active),
                         Not(In(Col(v.hash), Subquery(Col(v.hash), Staging(root.name), Always))));
    var mergeKeys := ColumnsWith(root.columns, MergeKey);
    if |mergeKeys| > 0 {
      var key;
      if |mergeKeys| == 1 {
        key := Col(mergeKeys[0]);
      } else {
        key := Concat(mergeKeys, render);
      }
      condition := And(condition, In(key, Subquery(key, Staging(root.name), Always)));
    }
    var sql := [Update(Dest(root.name), v.to, boundary, condition)];
    assert sql == [Retire(root, v, boundary, active, render)];
    sql := sql + [Activate(root, v, boundary, active)];
    ghost var versioned := sql;
    assert versioned == [Retire(root, v, boundary, active, render), Activate(root, v, boundary, active)];
    ghost var nested := chain[1..];
    NoAdds();
    var i := 1;
    while i < |chain|
      invariant 1 <= i <= |chain|
      invariant NestedAdds(nested[..i - 1]).Ok?
      invariant sql == versioned + NestedAdds(nested[..i - 1]).value
    {
      assert nested[..i][..i - 1] == nested[..i - 1] && nested[..i][i - 1] == chain[i];
      var rk := RowKeyCol(chain[i]);
      if rk.Err? {
        NestedAddsFail(nested, i);
        return Err(rk.error);
      }
      NestedAddsMore(nested[..i]);
      sql := sql + [AddNew(chain[i], rk.value)];
      i := i + 1;
    }
    assert nested[..|chain| - 1] == nested;
    return Ok(sql);
  }

  lemma NoAdds()
    ensures NestedAdds([]) == Ok([])
  {
  }

  lemma NestedAddsMore(nested: seq<TableSchema>)
    requires nested != [] && NestedAdds(nested[..|nested| - 1]).Ok? && RowKeyCol(nested[|nested| - 1]).Ok?
    ensures NestedAdds(nested)
            == Ok(NestedAdds(nested[..|nested| - 1]).value
                  + [AddNew(nested[|nested| - 1], RowKeyCol(nested[|nested| - 1]).value)])
  {
  }

  lemma {:induction false} NestedAddsFail(nested: seq<TableSchema>, i: nat)
    requires 1 <= i <= |nested|
    requires NestedAdds(nested[..i - 1]).Ok? && RowKeyCol(nested[i - 1]).Err?
    ensures NestedAdds(nested) == Err(RowKeyCol(nested[i - 1]).error)
  {
    var n := |nested|;
    if i < n {
      assert nested[..n - 1][..i - 1] == nested[..i - 1];
      NestedAddsFail(nested[..n - 1], i);
    }
  }
}
