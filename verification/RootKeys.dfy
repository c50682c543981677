/**
  Root keys of nested tables: the deletes go by each table's own root key, the inserts by the one
  that was found last. When that puts the staged rows of accepted trees into their tables.
*/
module RootKeys {
  import opened Options
  import opened SqlModel
  import opened SqlMerge
  import opened RowFacts
  import opened DeleteInsert

  /** The i-th table lost just the rows of doomed trees and got just the staged rows of accepted ones. */
  ghost predicate TreesFollow(db: Database, db': Database, chain: seq<TableSchema>, i: nat, rk: Column, choose: Chooser)
    requires i < |chain|
  {
    Rows(db', Dest(chain[i].name))
    == Without(Rows(db, Dest(chain[i].name)), OwnKey(chain, i, rk), Doomed(db, chain[0], rk))
       + Within(Rows(db, Staging(chain[i].name)), OwnKey(chain, i, rk), Accepted(db, chain[0], rk, choose))
  }

  /** Whether the column that marks deletion is the row key itself. */
  predicate KeyIsMarker(root: TableSchema, rk: Column) {
    FirstWith(root.columns, HardDelete).Some? && FirstWith(root.columns, HardDelete).value.name == rk
  }

  /** A nested table follows the root table, whatever the data, if and only if its own root key column
      is the one found last, or no accepted rows are listed. */
  lemma OwnRootKeyExactly(chain: seq<TableSchema>, tempForDelete: bool, rk: Column, i: nat)
    requires Mergeable(chain, rk) && 1 <= i < |chain| && !KeyIsMarker(chain[0], rk)
    ensures MergeSql(chain, tempForDelete).Ok?
    ensures (forall db, choose :: Sane(db, chain, rk) ==>
               TreesFollow(db, Run(db, MergeSql(chain, tempForDelete).value, choose), chain, i, rk, choose))
            <==> FindsOwn(chain, i, rk)
  {
    hide Mergeable, Sane, Run, MergeSql, Doomed, Accepted, OwnKey, InsertKey, FindsOwn, Within, Without, KeyIsMarker;
    var first: Chooser := (rows: seq<Row>) => 0;
    OneTreeSane(chain, rk, i);
    NestedMergeResult(OneTree(chain, rk, i), chain, tempForDelete, rk, first);
    if FindsOwn(chain, i, rk) {
      OwnFound(chain, i, rk);
      forall db, choose | Sane(db, chain, rk)
        ensures TreesFollow(db, Run(db, MergeSql(chain, tempForDelete).value, choose), chain, i, rk, choose)
      {
        NestedMergeResult(db, chain, tempForDelete, rk, choose);
      }
    } else {
      OneTreeLost(chain, rk, i, first);
      assert Sane(OneTree(chain, rk, i), chain, rk);
    }
  }

  /** A first-level table whose rows refer to the root by the parent key, beside a deeper one with a root key. */
  function TwoLevels(): seq<TableSchema> {
    [TableSchema("t", None, [ColumnSchema("id", {PrimaryKey, RowKey}, false, None, None)], false, None),
     TableSchema("t__a", Some("t"),
                 [ColumnSchema("_dlt_parent_id", {ParentKey}, false, None, None),
                  ColumnSchema("_dlt_root_id", {}, false, None, None)], false, None),
     TableSchema("t__a__b", Some("t__a"), [ColumnSchema("_dlt_root_id", {RootKey}, false, None, None)], false, None)]
  }

  /** One tree is staged, and its row of the first-level table is not inserted. */
  lemma StagedRowLost(tempForDelete: bool, choose: Chooser)
    ensures
      var chain := TwoLevels();
      var db := OneTree(chain, "id", 1);
      && Mergeable(chain, "id") && Sane(db, chain, "id") && MergeSql(chain, tempForDelete).Ok?
      && Rows(db, Staging("t__a")) == [map["_dlt_parent_id" := Num(1), "_dlt_root_id" := Null]]
      && Rows(Run(db, MergeSql(chain, tempForDelete).value, choose), Dest("t")) == [map["id" := Num(1)]]
      && Rows(Run(db, MergeSql(chain, tempForDelete).value, choose), Dest("t__a")) == []
  {
    hide *;
    TwoLevelsMergeable();
    var chain := TwoLevels();
    var db := OneTree(chain, "id", 1);
    OneTreeSane(chain, "id", 1);
    OneTreeAccepted(chain, "id", 1, choose);
    OneTreeLost(chain, "id", 1, choose);
    NestedMergeResult(db, chain, tempForDelete, "id", choose);
    OneTreeInserted(chain, "id", 1, choose);
    NothingThere(chain, "id", 1);
    NothingLeft(OwnKey(chain, 0, "id"), Doomed(db, chain[0], "id"));
    NothingLeft(OwnKey(chain, 1, "id"), Doomed(db, chain[0], "id"));
    IncomingIs(db, chain, 0, "id", choose);
    IncomingIs(db, chain, 1, "id", choose);
  }

  lemma IncomingIs(db: Database, chain: seq<TableSchema>, i: nat, rk: Column, choose: Chooser)
    requires i < |chain|
    ensures Incoming(db, chain, i, rk, choose)
            == Within(Rows(db, Staging(chain[i].name)), InsertKey(chain, i, rk), Accepted(db, chain[0], rk, choose))
  {
  }

  lemma NothingLeft(c: Column, keys: set<Value>)
    ensures Without([], c, keys) == []
  {
  }

  lemma TwoLevelsMergeable()
    ensures |TwoLevels()| == 3 && TwoLevels()[0].name == "t" && TwoLevels()[1].name == "t__a"
    ensures Mergeable(TwoLevels(), "id") && !FindsOwn(TwoLevels(), 1, "id") && !KeyIsMarker(TwoLevels()[0], "id")
    ensures KeyedBy(AllColumns(TwoLevels()[0].columns), "id") == map["id" := Num(1)]
    ensures KeyedBy(AllColumns(TwoLevels()[1].columns), OwnKey(TwoLevels(), 1, "id"))
            == map["_dlt_parent_id" := Num(1), "_dlt_root_id" := Null]
  {
    var chain := TwoLevels();
    var cs := chain[1].columns;
    assert FirstWith(cs, RootKey) == FirstWith(cs[1..], RootKey) == FirstWith(cs[1..][1..], RootKey) == None;
    assert AllColumns(cs) == ["_dlt_parent_id"] + AllColumns(cs[1..]);
    assert AllColumns(cs[1..]) == ["_dlt_root_id"] + AllColumns(cs[2..]);
    assert AllColumns(cs) == ["_dlt_parent_id", "_dlt_root_id"];
    assert AllColumns(chain[0].columns) == ["id"];
  }

  lemma NothingThere(chain: seq<TableSchema>, rk: Column, i: nat)
    requires i < |chain|
    ensures forall t: Table :: !t.Staging? ==> Rows(OneTree(chain, rk, i), t) == []
  {
  }

  lemma OneTreeInserted(chain: seq<TableSchema>, rk: Column, i: nat, choose: Chooser)
    requires Mergeable(chain, rk) && 1 <= i < |chain| && !KeyIsMarker(chain[0], rk)
    ensures
      var db := OneTree(chain, rk, i);
      Within(Rows(db, Staging(chain[0].name)), InsertKey(chain, 0, rk), Accepted(db, chain[0], rk, choose))
      == Rows(db, Staging(chain[0].name))
  {
    hide Accepted, AllColumns, OneTree;
    OneTreeSane(chain, rk, i);
    OneTreeAccepted(chain, rk, i, choose);
    KeysAmongColumns(chain, rk, i);
    var r := KeyedBy(AllColumns(chain[0].columns), rk);
    KeyedByKey(AllColumns(chain[0].columns), rk);
    assert Get(r, rk) in Keys([r], rk);
    FilterAll([r], KeyIn(rk, {Num(1)}));
  }

  // ---------------------------------------------------------------------------------------
  // One staged tree with a row in the root and one in the i-th table

  /** A row with nothing but a key. */
  function KeyedBy(cs: seq<Column>, key: Column): Row {
    map c | c in cs :: if c == key then Num(1) else Null
  }

  function OneTree(chain: seq<TableSchema>, rk: Column, i: nat): Database
    requires i < |chain|
  {
    map[Staging(chain[0].name) := [KeyedBy(AllColumns(chain[0].columns), rk)],
        Staging(chain[i].name) := [KeyedBy(AllColumns(chain[i].columns), OwnKey(chain, i, rk))]]
  }

  lemma {:induction false} FoundAmongAll(columns: seq<ColumnSchema>, hint: Hint)
    ensures FirstWith(columns, hint).Some? ==> FirstWith(columns, hint).value.name in AllColumns(columns)
  {
    if columns != [] {
      FoundAmongAll(columns[1..], hint);
      assert AllColumns(columns) == [columns[0].name] + AllColumns(columns[1..]);
    }
  }

  lemma {:induction false} HintedAmongAll(columns: seq<ColumnSchema>, hint: Hint)
    ensures forall c :: c in ColumnsWith(columns, hint) ==> c in AllColumns(columns)
  {
    if columns != [] {
      HintedAmongAll(columns[1..], hint);
      assert AllColumns(columns) == [columns[0].name] + AllColumns(columns[1..]);
    }
  }

  lemma KeysAmongColumns(chain: seq<TableSchema>, rk: Column, i: nat)
    requires Mergeable(chain, rk) && 1 <= i < |chain|
    ensures rk in AllColumns(chain[0].columns) && OwnKey(chain, i, rk) in AllColumns(chain[i].columns)
  {
    hide AllColumns, ColumnsWith, FirstWith;
    FoundAmongAll(chain[0].columns, RowKey);
    FoundAmongAll(chain[0].columns, UniqueKey);
    HintedAmongAll(chain[0].columns, PrimaryKey);
    FoundAmongAll(chain[i].columns, RootKey);
    FoundAmongAll(chain[i].columns, ParentKey);
  }

  lemma KeyedByKey(cs: seq<Column>, key: Column)
    requires key in cs
    ensures Shaped([KeyedBy(cs, key)], cs) && Keys([KeyedBy(cs, key)], key) == {Num(1)}
    ensures forall c :: c != key ==> Get(KeyedBy(cs, key), c) == Null
  {
    var r := KeyedBy(cs, key);
    assert r in [r] && Get(r, key) == Num(1);
  }

  lemma OneTreeSane(chain: seq<TableSchema>, rk: Column, i: nat)
    requires Mergeable(chain, rk) && 1 <= i < |chain|
    ensures Sane(OneTree(chain, rk, i), chain, rk)
    ensures Rows(OneTree(chain, rk, i), Staging(chain[i].name))
            == [KeyedBy(AllColumns(chain[i].columns), OwnKey(chain, i, rk))]
    ensures Rows(OneTree(chain, rk, i), Staging(chain[0].name)) == [KeyedBy(AllColumns(chain[0].columns), rk)]
  {
    hide AllColumns, OwnKey, KeyedBy, RowKeyCol, RootKeyCol, KeysDiffer, Keys, Unique, Shaped, PrimaryKeys, MergeKeys,
         OneTree;
    KeysAmongColumns(chain, rk, i);
    KeyedByKey(AllColumns(chain[0].columns), rk);
    KeyedByKey(AllColumns(chain[i].columns), OwnKey(chain, i, rk));
    OneRow(KeyedBy(AllColumns(chain[0].columns), rk), PrimaryKeys(chain[0]), rk);
    OneTreeRows(chain, rk, i);
    NothingThere(chain, rk, i);
    NoRows(AllColumns(chain[i].columns), rk);
    forall j | 1 <= j < |chain|
      ensures Keys([], OwnKey(chain, j, rk)) == {} && Shaped([], AllColumns(chain[j].columns))
    {
      NoRows(AllColumns(chain[j].columns), OwnKey(chain, j, rk));
    }
  }

  lemma NoRows(cs: seq<Column>, c: Column)
    ensures Keys([], c) == {} && Unique([], c) && Shaped([], cs)
  {
  }

  lemma OneTreeRows(chain: seq<TableSchema>, rk: Column, i: nat)
    requires 1 <= i < |chain| && DistinctNames(chain)
    ensures
      var db := OneTree(chain, rk, i);
      && Rows(db, Staging(chain[0].name)) == [KeyedBy(AllColumns(chain[0].columns), rk)]
      && Rows(db, Staging(chain[i].name)) == [KeyedBy(AllColumns(chain[i].columns), OwnKey(chain, i, rk))]
      && forall j :: 1 <= j < |chain| && j != i ==> Rows(db, Staging(chain[j].name)) == []
  {
    hide AllColumns, OwnKey, KeyedBy;
    forall j | 1 <= j < |chain| ensures chain[j].name != chain[0].name && (j != i ==> chain[j].name != chain[i].name) {
      assert j < i || j == i || i < j;
    }
  }

  lemma OneRow(r: Row, cs: seq<Column>, c: Column)
    ensures KeysDiffer([r], cs) && Unique([r], c)
  {
  }

  lemma OneTreeAccepted(chain: seq<TableSchema>, rk: Column, i: nat, choose: Chooser)
    requires Mergeable(chain, rk) && 1 <= i < |chain| && !KeyIsMarker(chain[0], rk)
    ensures Accepted(OneTree(chain, rk, i), chain[0], rk, choose) == {Num(1)}
  {
    hide Mergeable, OwnKey, KeyedBy, OneTree, Dedup, AllColumns, RootKeyCol, Live;
    var root, r := chain[0], KeyedBy(AllColumns(chain[0].columns), rk);
    OneTreeSane(chain, rk, i);
    KeysAmongColumns(chain, rk, i);
    KeyedByKey(AllColumns(root.columns), rk);
    OneRow(r, PrimaryKeys(root), rk);
    DedupOfDistinct([r], PrimaryKeys(root), DedupSort(root.columns), choose);
    NotMarked(root, rk, r);
    FilterAll([r], LiveIn(root));
  }

  lemma NotMarked(root: TableSchema, rk: Column, r: Row)
    requires !KeyIsMarker(root, rk) && forall c :: c != rk ==> Get(r, c) == Null
    ensures Live(root, r)
  {
    if NotDeleted(root).Some? {
      var marker := FirstWith(root.columns, HardDelete).value.name;
      assert Eval(Col(marker), r) == Null;
      assert Holds(map[], IsNull(Col(marker)), r);
    }
  }

  lemma OneTreeLost(chain: seq<TableSchema>, rk: Column, i: nat, choose: Chooser)
    requires Mergeable(chain, rk) && 1 <= i < |chain| && !KeyIsMarker(chain[0], rk) && !FindsOwn(chain, i, rk)
    ensures
      var db := OneTree(chain, rk, i);
      && Within(Rows(db, Staging(chain[i].name)), InsertKey(chain, i, rk), Accepted(db, chain[0], rk, choose)) == []
      && Within(Rows(db, Staging(chain[i].name)), OwnKey(chain, i, rk), Accepted(db, chain[0], rk, choose))
         == Rows(db, Staging(chain[i].name)) != []
  {
    hide Accepted, AllColumns, OneTree;
    OneTreeSane(chain, rk, i);
    OneTreeAccepted(chain, rk, i, choose);
    KeysAmongColumns(chain, rk, i);
    var own, r := OwnKey(chain, i, rk), KeyedBy(AllColumns(chain[i].columns), OwnKey(chain, i, rk));
    KeyedByKey(AllColumns(chain[i].columns), own);
    assert InsertKey(chain, i, rk) != own;
    FilterNone([r], KeyIn(InsertKey(chain, i, rk), {Num(1)}));
    assert Get(r, own) in Keys([r], own);
    FilterAll([r], KeyIn(own, {Num(1)}));
  }
}
