/**
  The hints of a table, read column by column: which column is the first with a hint, which rows
  agree on all columns with a hint, and what the helpers of the merge jobs make of that.
*/
module Hints {
  import opened Options
  import opened SqlModel
  import opened SqlMerge
  import opened RowFacts

  // ---------------------------------------------------------------------------------------
  // Columns with a hint

  ghost predicate FirstHinted(columns: seq<ColumnSchema>, i: int, hint: Hint) {
    0 <= i < |columns| && hint in columns[i].hints && forall j :: 0 <= j < i ==> hint !in columns[j].hints
  }

  ghost predicate Hinted(columns: seq<ColumnSchema>, hint: Hint) {
    exists j :: 0 <= j < |columns| && hint in columns[j].hints
  }

  /** The rows have the same value in every column with the hint. */
  ghost predicate Agree(columns: seq<ColumnSchema>, hint: Hint, r: Row, s: Row) {
    forall j :: 0 <= j < |columns| && hint in columns[j].hints ==> Get(r, columns[j].name) == Get(s, columns[j].name)
  }

  /** The first column with a hint to sort by. */
  ghost predicate FirstSorted(columns: seq<ColumnSchema>, i: int) {
    0 <= i < |columns| && columns[i].dedupSort.Some? && forall j :: 0 <= j < i ==> columns[j].dedupSort.None?
  }

  /** The rows have just the columns of their table. */
  ghost predicate HaveColumns(rows: seq<Row>, columns: seq<ColumnSchema>) {
    forall r, c :: r in rows ==> (c in r <==> exists j :: 0 <= j < |columns| && columns[j].name == c)
  }

  lemma {:induction false} FirstMeans(columns: seq<ColumnSchema>, hint: Hint)
    ensures FirstWith(columns, hint).None? <==> !Hinted(columns, hint)
    ensures FirstWith(columns, hint).Some? ==>
              exists i :: FirstHinted(columns, i, hint) && FirstWith(columns, hint) == Some(columns[i])
  {
    if columns != [] {
      var tail := columns[1..];
      FirstMeans(tail, hint);
      assert forall j :: 0 <= j < |tail| ==> tail[j] == columns[j + 1];
      if hint in columns[0].hints {
        assert FirstHinted(columns, 0, hint);
      } else if !Hinted(tail, hint) {
        assert forall j :: 0 < j < |columns| ==> columns[j] == tail[j - 1];
      } else {
        var i :| FirstHinted(tail, i, hint) && FirstWith(tail, hint) == Some(tail[i]);
        assert forall j :: 0 < j < |columns| ==> columns[j] == tail[j - 1];
        assert FirstHinted(columns, i + 1, hint);
        assert hint in columns[i + 1].hints;
      }
    }
  }

  lemma FirstIs(columns: seq<ColumnSchema>, i: int, hint: Hint)
    requires FirstHinted(columns, i, hint)
    ensures FirstWith(columns, hint) == Some(columns[i])
  {
    hide FirstWith;
    FirstMeans(columns, hint);
    var k :| FirstHinted(columns, k, hint) && FirstWith(columns, hint) == Some(columns[k]);
    assert k == i;
  }

  lemma {:induction false} ColumnsMean(columns: seq<ColumnSchema>, hint: Hint, c: Column)
    ensures c in ColumnsWith(columns, hint)
            <==> exists j :: 0 <= j < |columns| && hint in columns[j].hints && columns[j].name == c
  {
    if columns != [] {
      var tail := columns[1..];
      ColumnsMean(tail, hint, c);
      if j :| 0 <= j < |tail| && hint in tail[j].hints && tail[j].name == c {
        assert columns[j + 1] == tail[j];
      }
      if j :| 0 <= j < |columns| && hint in columns[j].hints && columns[j].name == c {
        assert j > 0 ==> tail[j - 1] == columns[j];
      }
    }
  }

  lemma NoColumns(columns: seq<ColumnSchema>, hint: Hint)
    ensures ColumnsWith(columns, hint) == [] <==> !Hinted(columns, hint)
  {
    hide ColumnsWith;
    var cs := ColumnsWith(columns, hint);
    if cs != [] {
      ColumnsMean(columns, hint, cs[0]);
    }
    if j :| 0 <= j < |columns| && hint in columns[j].hints {
      ColumnsMean(columns, hint, columns[j].name);
    }
  }

  lemma AgreeMeans(columns: seq<ColumnSchema>, hint: Hint, r: Row, s: Row)
    ensures KeyMatch(r, s, ColumnsWith(columns, hint)) <==> Agree(columns, hint, r, s)
    ensures KeyOf(r, ColumnsWith(columns, hint)) == KeyOf(s, ColumnsWith(columns, hint)) <==> Agree(columns, hint, r, s)
  {
    hide ColumnsWith, Get, KeyOf;
    var cs := ColumnsWith(columns, hint);
    KeyMatchMeans(r, s, cs);
    if KeyMatch(r, s, cs) {
      forall j | 0 <= j < |columns| && hint in columns[j].hints
        ensures Get(r, columns[j].name) == Get(s, columns[j].name)
      {
        ColumnsMean(columns, hint, columns[j].name);
      }
    }
    if Agree(columns, hint, r, s) {
      forall c | c in cs ensures Get(r, c) == Get(s, c) {
        ColumnsMean(columns, hint, c);
      }
    }
  }

  lemma AllMeans(rows: seq<Row>, columns: seq<ColumnSchema>)
    ensures Shaped(rows, AllColumns(columns)) <==> HaveColumns(rows, columns)
  {
    hide AllColumns;
    var cs := AllColumns(columns);
    forall c ensures c in cs <==> exists j :: 0 <= j < |columns| && columns[j].name == c {
      AmongAll(columns, c);
    }
    if HaveColumns(rows, columns) {
      forall r | r in rows ensures r.Keys == set c | c in cs {
        forall c ensures c in r.Keys <==> c in cs {
        }
      }
    }
    if Shaped(rows, cs) {
      forall r, c | r in rows ensures c in r <==> exists j :: 0 <= j < |columns| && columns[j].name == c {
        assert c in r.Keys <==> c in (set x | x in cs);
      }
    }
  }

  lemma AmongAll(columns: seq<ColumnSchema>, c: Column)
    ensures c in AllColumns(columns) <==> exists j :: 0 <= j < |columns| && columns[j].name == c
  {
    var cs := AllColumns(columns);
    if c in cs {
      var j :| 0 <= j < |cs| && cs[j] == c;
      assert columns[j].name == c;
    }
    if j :| 0 <= j < |columns| && columns[j].name == c {
      assert cs[j] == c;
    }
  }

  lemma {:induction false} SortMeans(columns: seq<ColumnSchema>)
    ensures DedupSort(columns).None? ==> forall j :: 0 <= j < |columns| ==> columns[j].dedupSort.None?
    ensures DedupSort(columns).Some? ==>
              exists i :: FirstSorted(columns, i)
                && DedupSort(columns) == Some(Sort(columns[i].name, columns[i].dedupSort.value))
  {
    if columns != [] {
      var tail := columns[1..];
      SortMeans(tail);
      assert forall j :: 0 < j < |columns| ==> columns[j] == tail[j - 1];
      if columns[0].dedupSort.Some? {
        assert FirstSorted(columns, 0);
      } else if DedupSort(tail).Some? {
        var i :| FirstSorted(tail, i) && DedupSort(tail) == Some(Sort(tail[i].name, tail[i].dedupSort.value));
        assert FirstSorted(columns, i + 1);
      }
    }
  }

  // ---------------------------------------------------------------------------------------
  // Row keys and root keys

  ghost predicate OnlyHinted(columns: seq<ColumnSchema>, i: int, hint: Hint) {
    && 0 <= i < |columns| && hint in columns[i].hints
    && forall j :: 0 <= j < |columns| && j != i ==> hint !in columns[j].hints
  }

  /** The column that identifies rows: the first one hinted as row key, or else the first one hinted as
      unique, or else the primary key if that is one column. */
  ghost predicate IsRowKey(t: TableSchema, c: Column) {
    || (exists i :: FirstHinted(t.columns, i, RowKey) && t.columns[i].name == c)
    || (!Hinted(t.columns, RowKey) && exists i :: FirstHinted(t.columns, i, UniqueKey) && t.columns[i].name == c)
    || (!Hinted(t.columns, RowKey) && !Hinted(t.columns, UniqueKey)
        && exists i :: OnlyHinted(t.columns, i, PrimaryKey) && t.columns[i].name == c)
  }

  ghost predicate HasRowKey(t: TableSchema) {
    exists c :: IsRowKey(t, c)
  }

  /** The column that refers to the root table: the first one hinted as root key, or else, in a table
      right below the root, the first one hinted as parent key. */
  ghost predicate IsRootKey(root: TableSchema, t: TableSchema, c: Column) {
    || (exists i :: FirstHinted(t.columns, i, RootKey) && t.columns[i].name == c)
    || (!Hinted(t.columns, RootKey) && t.parent == Some(root.name)
        && exists i :: FirstHinted(t.columns, i, ParentKey) && t.columns[i].name == c)
  }

  ghost predicate HasRootKey(root: TableSchema, t: TableSchema) {
    exists c :: IsRootKey(root, t, c)
  }

  lemma FirstNamed(columns: seq<ColumnSchema>, hint: Hint, c: Column)
    ensures (exists i :: FirstHinted(columns, i, hint) && columns[i].name == c)
            <==> FirstWith(columns, hint).Some? && FirstWith(columns, hint).value.name == c
  {
    hide FirstWith;
    FirstMeans(columns, hint);
    if i :| FirstHinted(columns, i, hint) && columns[i].name == c {
      FirstIs(columns, i, hint);
    }
  }

  lemma {:induction false} OneColumn(columns: seq<ColumnSchema>, hint: Hint)
    ensures |ColumnsWith(columns, hint)| == 1
            <==> exists i :: OnlyHinted(columns, i, hint) && ColumnsWith(columns, hint) == [columns[i].name]
  {
    if columns != [] {
      var tail, cs := columns[1..], ColumnsWith(columns[1..], hint);
      assert forall j :: 0 < j < |columns| ==> columns[j] == tail[j - 1];
      if hint in columns[0].hints {
        NoColumns(tail, hint);
        if cs == [] {
          assert OnlyHinted(columns, 0, hint);
        }
      } else {
        OneColumn(tail, hint);
        if |cs| == 1 {
          var i :| OnlyHinted(tail, i, hint) && cs == [tail[i].name];
          assert OnlyHinted(columns, i + 1, hint);
        }
      }
    }
  }

  lemma {:induction false} OneColumnNamed(columns: seq<ColumnSchema>, i: int, hint: Hint)
    requires OnlyHinted(columns, i, hint)
    ensures ColumnsWith(columns, hint) == [columns[i].name]
  {
    var tail := columns[1..];
    assert forall j :: 0 < j < |columns| ==> columns[j] == tail[j - 1];
    if i == 0 {
      NoColumns(tail, hint);
    } else {
      OneColumnNamed(tail, i - 1, hint);
    }
  }

  /** The row key of a table is found if and only if there is one, and otherwise the error says whether
      there are several primary keys or no key at all. */
  lemma RowKeyExactly(t: TableSchema)
    ensures forall c :: RowKeyCol(t) == Ok(c) <==> IsRowKey(t, c)
    ensures RowKeyCol(t).Ok? <==> HasRowKey(t)
    ensures RowKeyCol(t).Err? ==>
              RowKeyCol(t) == Err(if Hinted(t.columns, PrimaryKey) then ManyPrimaryKeys(t.name) else NoRowKey(t.name))
  {
    var pks := ColumnsWith(t.columns, PrimaryKey);
    hide FirstWith, ColumnsWith;
    FirstMeans(t.columns, RowKey);
    FirstMeans(t.columns, UniqueKey);
    NoColumns(t.columns, PrimaryKey);
    OneColumn(t.columns, PrimaryKey);
    forall c ensures RowKeyCol(t) == Ok(c) <==> IsRowKey(t, c) {
      FirstNamed(t.columns, RowKey, c);
      FirstNamed(t.columns, UniqueKey, c);
      if i :| OnlyHinted(t.columns, i, PrimaryKey) && t.columns[i].name == c {
        OneColumnNamed(t.columns, i, PrimaryKey);
      }
    }
    assert RowKeyCol(t).Ok? ==> IsRowKey(t, RowKeyCol(t).value);
  }

  lemma RootKeyExactly(root: TableSchema, t: TableSchema)
    ensures forall c :: RootKeyCol(root, t) == Ok(c) <==> IsRootKey(root, t, c)
    ensures RootKeyCol(root, t).Ok? <==> HasRootKey(root, t)
    ensures RootKeyCol(root, t).Err? ==> RootKeyCol(root, t) == Err(NoRootKey(t.name))
  {
    hide FirstWith;
    FirstMeans(t.columns, RootKey);
    FirstMeans(t.columns, ParentKey);
    forall c ensures RootKeyCol(root, t) == Ok(c) <==> IsRootKey(root, t, c) {
      FirstNamed(t.columns, RootKey, c);
      FirstNamed(t.columns, ParentKey, c);
    }
    assert RootKeyCol(root, t).Ok? ==> IsRootKey(root, t, RootKeyCol(root, t).value);
  }
}
