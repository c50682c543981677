/**
  What delete-insert and upsert leave in the tables, told from the hints of the columns and the values
  of the rows alone: which rows are replaced, which staged row of a key counts, and what a row
  marked as deleted does.
*/
module MergeMeaning {
  import opened Options
  import opened SqlModel
  import opened SqlMerge
  import opened RowFacts
  import opened Hints
  import opened DeleteInsert
  import opened SingleTableMerge
  import opened Upsert

  // ---------------------------------------------------------------------------------------
  // Rows and hints

  /** The rows have the same primary key or the same merge key. */
  ghost predicate SameByHint(root: TableSchema, r: Row, s: Row) {
    || (Hinted(root.columns, PrimaryKey) && Agree(root.columns, PrimaryKey, r, s))
    || (Hinted(root.columns, MergeKey) && Agree(root.columns, MergeKey, r, s))
  }

  ghost predicate Replaced(root: TableSchema, staged: seq<Row>, r: Row) {
    exists s :: s in staged && SameByHint(root, r, s)
  }

  /** Delete-insert does not insert a staged row that is marked as deleted: in a bool column, by
      anything but false or NULL; in any other, by anything but NULL. */
  ghost predicate Excluded(root: TableSchema, r: Row) {
    exists i :: FirstHinted(root.columns, i, HardDelete)
      && var v := Get(r, root.columns[i].name);
         if root.columns[i].isBool then v != Null && v != Flag(false) else v != Null
  }

  /** Upsert deletes the row that such a staged row matches: in a bool column, one with true; in any
      other, one with anything but NULL. */
  ghost predicate Marked(root: TableSchema, r: Row) {
    exists i :: FirstHinted(root.columns, i, HardDelete)
      && var v := Get(r, root.columns[i].name);
         if root.columns[i].isBool then v == Flag(true) else v != Null
  }

  lemma ReplacedMeans(root: TableSchema, staged: seq<Row>, r: Row)
    requires Hinted(root.columns, PrimaryKey) || Hinted(root.columns, MergeKey)
    ensures MatchedBy(r, staged, Clauses(root)) <==> Replaced(root, staged, r)
  {
    hide ColumnsWith, KeyMatch, Agree, Hinted;
    NoColumns(root.columns, PrimaryKey);
    NoColumns(root.columns, MergeKey);
    forall s ensures Matches(r, s, Clauses(root)) <==> SameByHint(root, r, s) {
      AgreeMeans(root.columns, PrimaryKey, r, s);
      AgreeMeans(root.columns, MergeKey, r, s);
      ClausesAre(root);
    }
  }

  lemma ClausesAre(root: TableSchema)
    requires PrimaryKeys(root) != [] || MergeKeys(root) != []
    ensures forall clause :: clause in Clauses(root) <==>
      || (PrimaryKeys(root) != [] && clause == PrimaryKeys(root))
      || (MergeKeys(root) != [] && clause == MergeKeys(root))
  {
  }

  lemma ExcludedMeans(root: TableSchema, r: Row)
    ensures Live(root, r) <==> !Excluded(root, r)
  {
    hide FirstWith;
    FirstMeans(root.columns, HardDelete);
    if FirstWith(root.columns, HardDelete).Some? {
      var i :| FirstHinted(root.columns, i, HardDelete) && FirstWith(root.columns, HardDelete) == Some(root.columns[i]);
      var c := root.columns[i];
      assert Excluded(root, r) <==>
        if c.isBool then Get(r, c.name) != Null && Get(r, c.name) != Flag(false) else Get(r, c.name) != Null;
      assert Holds(map[], IsNull(Col(c.name)), r) <==> Get(r, c.name) == Null;
      assert Holds(map[], Equals(Col(c.name), Flag(false)), r) <==> Get(r, c.name) == Flag(false);
    }
  }

  lemma MarkedMeans(root: TableSchema, r: Row)
    ensures DeletedIn(root)(r) <==> Marked(root, r)
  {
    hide FirstWith;
    FirstMeans(root.columns, HardDelete);
    if FirstWith(root.columns, HardDelete).Some? {
      var i :| FirstHinted(root.columns, i, HardDelete) && FirstWith(root.columns, HardDelete) == Some(root.columns[i]);
      var c := root.columns[i];
      assert Marked(root, r) <==> if c.isBool then Get(r, c.name) == Flag(true) else Get(r, c.name) != Null;
      assert Holds(map[], IsNull(Col(c.name)), r) <==> Get(r, c.name) == Null;
      assert Holds(map[], Equals(Col(c.name), Flag(true)), r) <==> Get(r, c.name) == Flag(true);
    }
  }

  // ---------------------------------------------------------------------------------------
  // Which staged row of a key counts

  /** No staged row of the same primary key has a larger number in the first column with a hint to sort
      by if that is descending, or a smaller one if it is ascending. */
  ghost predicate Extreme(root: TableSchema, staged: seq<Row>, w: Row) {
    forall i, u :: FirstSorted(root.columns, i) && u in staged && Agree(root.columns, PrimaryKey, u, w) ==>
      var c, order := root.columns[i].name, root.columns[i].dedupSort.value;
      Get(u, c).Num? && Get(w, c).Num? ==>
        if order == Desc then Get(w, c).n >= Get(u, c).n else Get(w, c).n <= Get(u, c).n
  }

  /** One staged row of every primary key, an extreme one; all of them if there is no primary key. */
  ghost predicate OneOfEach(root: TableSchema, staged: seq<Row>, kept: seq<Row>) {
    if Hinted(root.columns, PrimaryKey) then
      && (forall w :: w in kept ==> w in staged && Extreme(root, staged, w))
      && (forall s :: s in staged ==> exists w :: w in kept && Agree(root.columns, PrimaryKey, w, s))
      && (forall i, j :: 0 <= i < j < |kept| ==> !Agree(root.columns, PrimaryKey, kept[i], kept[j]))
    else kept == staged
  }

  /** No two of the rows have the same primary key. */
  ghost predicate Distinguished(root: TableSchema, rows: seq<Row>) {
    forall i, j :: 0 <= i < j < |rows| ==> !Agree(root.columns, PrimaryKey, rows[i], rows[j])
  }

  lemma DistinguishedMeans(root: TableSchema, rows: seq<Row>)
    ensures KeysDiffer(rows, PrimaryKeys(root)) <==> Distinguished(root, rows)
  {
    hide KeyOf, Agree, ColumnsWith;
    forall i, j | 0 <= i < j < |rows|
      ensures KeyOf(rows[i], PrimaryKeys(root)) == KeyOf(rows[j], PrimaryKeys(root))
              <==> Agree(root.columns, PrimaryKey, rows[i], rows[j])
    {
      AgreeMeans(root.columns, PrimaryKey, rows[i], rows[j]);
    }
  }

  lemma CandidatesByHint(db: Database, root: TableSchema, choose: Chooser)
    ensures OneOfEach(root, Rows(db, Staging(root.name)), Candidates(db, root, choose))
  {
    hide KeyOf, Agree, ColumnsWith, Extreme, Hinted, Dedup, DedupSort, Wins;
    NoColumns(root.columns, PrimaryKey);
    if Hinted(root.columns, PrimaryKey) {
      var pk, staged, kept := PrimaryKeys(root), Rows(db, Staging(root.name)), Candidates(db, root, choose);
      DedupKeepsWinners(staged, pk, DedupSort(root.columns), choose);
      DistinguishedMeans(root, kept);
      forall w | w in kept ensures w in staged && Extreme(root, staged, w) {
        WinnerIsExtreme(root, staged, w);
      }
      forall s | s in staged ensures exists w :: w in kept && Agree(root.columns, PrimaryKey, w, s) {
        var w :| w in kept && KeyOf(w, pk) == KeyOf(s, pk);
        AgreeMeans(root.columns, PrimaryKey, w, s);
      }
    }
  }

  lemma WinnerIsExtreme(root: TableSchema, staged: seq<Row>, w: Row)
    requires Wins(w, staged, PrimaryKeys(root), DedupSort(root.columns))
    ensures w in staged && Extreme(root, staged, w)
  {
    hide KeyOf, Agree, ColumnsWith, DedupSort;
    SortMeans(root.columns);
    forall i, u | FirstSorted(root.columns, i) && u in staged && Agree(root.columns, PrimaryKey, u, w)
      ensures
        var c, order := root.columns[i].name, root.columns[i].dedupSort.value;
        Get(u, c).Num? && Get(w, c).Num? ==>
          if order == Desc then Get(w, c).n >= Get(u, c).n else Get(w, c).n <= Get(u, c).n
    {
      AgreeMeans(root.columns, PrimaryKey, u, w);
      assert u in SameKey(staged, PrimaryKeys(root), KeyOf(w, PrimaryKeys(root)));
      assert DedupSort(root.columns) == Some(Sort(root.columns[i].name, root.columns[i].dedupSort.value)) by {
        SortIs(root.columns, i);
      }
      assert !Before(DedupSort(root.columns), u, w);
    }
  }

  lemma SortIs(columns: seq<ColumnSchema>, i: int)
    requires FirstSorted(columns, i)
    ensures DedupSort(columns) == Some(Sort(columns[i].name, columns[i].dedupSort.value))
  {
    hide DedupSort;
    SortMeans(columns);
    var k :| FirstSorted(columns, k)
      && DedupSort(columns) == Some(Sort(columns[k].name, columns[k].dedupSort.value));
    assert k == i;
  }

  // ---------------------------------------------------------------------------------------
  // Delete-insert into one table

  /** What a merge makes of a root table: the rows that no staged row replaces, and those that count of
      the staged ones, unless they are marked as deleted; each as often as it was there. */
  ghost predicate MergedRoot(root: TableSchema, before: seq<Row>, staged: seq<Row>, kept: seq<Row>, after: seq<Row>) {
    && OneOfEach(root, staged, kept)
    && forall r :: multiset(after)[r] == (if Replaced(root, staged, r) then 0 else multiset(before)[r])
                                         + (if Excluded(root, r) then 0 else multiset(kept)[r])
  }

  ghost predicate RootReady(db: Database, root: TableSchema, tempForDelete: bool) {
    var before, staged := Rows(db, Dest(root.name)), Rows(db, Staging(root.name));
    && root.parent.None? && HaveColumns(staged, root.columns)
    && (root.deduplicated && Hinted(root.columns, PrimaryKey) ==> Distinguished(root, staged))
    && (tempForDelete && (Hinted(root.columns, PrimaryKey) || Hinted(root.columns, MergeKey)) ==>
          exists c :: IsRowKey(root, c) && Unique(before, c))
  }

  /** Delete-insert on a single table, with a primary key, a merge key, both or none. */
  lemma MergedByHint(db: Database, root: TableSchema, tempForDelete: bool, choose: Chooser)
    requires RootReady(db, root, tempForDelete)
    ensures MergeSql([root], tempForDelete).Ok?
    ensures
      var after := Rows(Run(db, MergeSql([root], tempForDelete).value, choose), Dest(root.name));
      exists kept :: MergedRoot(root, Rows(db, Dest(root.name)), Rows(db, Staging(root.name)), kept, after)
  {
    hide MergedRoot, MergeSql, Run, Unique, IsRowKey, RowKeyCol, HaveColumns, Shaped, AllColumns, Distinguished, Hinted,
         KeysDiffer, ColumnsWith, Filter, Kept, Added, Candidates;
    var before, staged := Rows(db, Dest(root.name)), Rows(db, Staging(root.name));
    NoColumns(root.columns, PrimaryKey);
    NoColumns(root.columns, MergeKey);
    AllMeans(staged, root.columns);
    DistinguishedMeans(root, staged);
    RowKeyExactly(root);
    CandidatesByHint(db, root, choose);
    if Hinted(root.columns, PrimaryKey) {
      SingleTableResult(db, root, tempForDelete, choose);
      AddedIs(db, root, choose);
    } else {
      WithoutPrimaryKey(db, root, tempForDelete, choose);
      AllAreCandidates(db, root, choose);
    }
    KeptOrMerged(db, root, choose, Rows(Run(db, MergeSql([root], tempForDelete).value, choose), Dest(root.name)));
  }

  lemma AddedIs(db: Database, root: TableSchema, choose: Chooser)
    ensures Added(db, root, choose) == Filter(Candidates(db, root, choose), LiveIn(root))
  {
  }

  lemma AllAreCandidates(db: Database, root: TableSchema, choose: Chooser)
    requires PrimaryKeys(root) == []
    ensures Candidates(db, root, choose) == Rows(db, Staging(root.name))
  {
  }

  lemma KeptOrMerged(db: Database, root: TableSchema, choose: Chooser, after: seq<Row>)
    requires
      after == (if PrimaryKeys(root) == [] && MergeKeys(root) == [] then Rows(db, Dest(root.name)) else Kept(db, root))
               + Filter(Candidates(db, root, choose), LiveIn(root))
    requires OneOfEach(root, Rows(db, Staging(root.name)), Candidates(db, root, choose))
    ensures MergedRoot(root, Rows(db, Dest(root.name)), Rows(db, Staging(root.name)), Candidates(db, root, choose),
                       after)
  {
    hide Candidates, OneOfEach, ColumnsWith, Live, Excluded, MatchedBy, Hinted;
    var before, staged, kept := Rows(db, Dest(root.name)), Rows(db, Staging(root.name)), Candidates(db, root, choose);
    NoColumns(root.columns, PrimaryKey);
    NoColumns(root.columns, MergeKey);
    forall r
      ensures multiset(after)[r] == (if Replaced(root, staged, r) then 0 else multiset(before)[r])
                                    + (if Excluded(root, r) then 0 else multiset(kept)[r])
    {
      ExcludedMeans(root, r);
      FilterCounts(kept, LiveIn(root), r);
      if PrimaryKeys(root) != [] || MergeKeys(root) != [] {
        ReplacedMeans(root, staged, r);
        FilterCounts(before, UnmatchedIn(staged, Clauses(root)), r);
      }
    }
  }

  /** Of the staged rows of a primary key, whose numbers in the first column with a hint to sort by are all
      known, the merge keeps one with the largest if the hint is descending, or with the smallest if it
      is ascending, and no other row of the key; or none at all if that one is marked as deleted. */
  lemma ExtremeKept(db: Database, root: TableSchema, tempForDelete: bool, choose: Chooser, s: Row, i: nat)
    requires RootReady(db, root, tempForDelete) && Hinted(root.columns, PrimaryKey)
    requires s in Rows(db, Staging(root.name)) && FirstSorted(root.columns, i)
    requires forall u :: u in Rows(db, Staging(root.name)) && Agree(root.columns, PrimaryKey, u, s) ==>
               Get(u, root.columns[i].name).Num?
    ensures MergeSql([root], tempForDelete).Ok?
    ensures
      var staged, c, order := Rows(db, Staging(root.name)), root.columns[i].name, root.columns[i].dedupSort.value;
      var after := Rows(Run(db, MergeSql([root], tempForDelete).value, choose), Dest(root.name));
      exists w :: w in staged && Agree(root.columns, PrimaryKey, w, s)
        && (forall u :: u in staged && Agree(root.columns, PrimaryKey, u, s) ==>
              if order == Desc then Get(w, c).n >= Get(u, c).n else Get(w, c).n <= Get(u, c).n)
        && forall r :: r in after && Agree(root.columns, PrimaryKey, r, s) <==> r == w && !Excluded(root, w)
  {
    hide MergeSql, Run, RootReady, Excluded, Hinted, MergedRoot;
    MergedByHint(db, root, tempForDelete, choose);
    var before, staged := Rows(db, Dest(root.name)), Rows(db, Staging(root.name));
    var after := Rows(Run(db, MergeSql([root], tempForDelete).value, choose), Dest(root.name));
    var kept :| MergedRoot(root, before, staged, kept, after);
    OneStays(root, before, staged, kept, after, s);
    var w :| Extreme(root, staged, w) && w in staged && IsAlone(root, after, s, w);
    forall u | u in staged && Agree(root.columns, PrimaryKey, u, s) ensures Agree(root.columns, PrimaryKey, u, w) {
    }
  }

  /** Of a staged primary key, just the row that counts is there afterwards, unless it is marked. */
  lemma OneStays(root: TableSchema, before: seq<Row>, staged: seq<Row>, kept: seq<Row>, after: seq<Row>, s: Row)
    requires MergedRoot(root, before, staged, kept, after) && Hinted(root.columns, PrimaryKey) && s in staged
    ensures exists w :: Extreme(root, staged, w) && w in staged && IsAlone(root, after, s, w)
  {
    hide Extreme, Excluded, Hinted, Agree, IsAlone;
    var w :| w in kept && Agree(root.columns, PrimaryKey, w, s);
    Alone(root, before, staged, kept, after, s, w);
  }

  /** `w` is the one row with the primary key of `s`, or there is none if `w` is marked as deleted. */
  ghost predicate IsAlone(root: TableSchema, after: seq<Row>, s: Row, w: Row) {
    && Agree(root.columns, PrimaryKey, w, s)
    && forall r :: r in after && Agree(root.columns, PrimaryKey, r, s) <==> r == w && !Excluded(root, w)
  }

  lemma Alone(root: TableSchema, before: seq<Row>, staged: seq<Row>, kept: seq<Row>, after: seq<Row>, s: Row, w: Row)
    requires MergedRoot(root, before, staged, kept, after) && Hinted(root.columns, PrimaryKey) && s in staged
    requires w in kept && Agree(root.columns, PrimaryKey, w, s)
    ensures IsAlone(root, after, s, w)
  {
    hide Extreme, Excluded, Hinted, Agree, Replaced, OneOfEach;
    OnePerKey(root, staged, kept);
    forall r ensures r in after && Agree(root.columns, PrimaryKey, r, s) <==> r == w && !Excluded(root, w) {
      if Agree(root.columns, PrimaryKey, r, s) {
        ReplacedIf(root, staged, r, s);
        assert r in after <==> multiset(after)[r] > 0;
        assert r in kept <==> multiset(kept)[r] > 0;
        if r in kept {
          SameKept(root, kept, r, w, s);
        }
      }
    }
  }

  lemma OnePerKey(root: TableSchema, staged: seq<Row>, kept: seq<Row>)
    requires OneOfEach(root, staged, kept) && Hinted(root.columns, PrimaryKey)
    ensures Distinguished(root, kept)
  {
    hide Extreme, Hinted, Agree;
  }

  lemma ReplacedIf(root: TableSchema, staged: seq<Row>, r: Row, s: Row)
    requires Hinted(root.columns, PrimaryKey) && s in staged && Agree(root.columns, PrimaryKey, r, s)
    ensures Replaced(root, staged, r)
  {
    hide Hinted, Agree;
    assert SameByHint(root, r, s);
  }

  lemma SameKept(root: TableSchema, kept: seq<Row>, r: Row, w: Row, s: Row)
    requires Distinguished(root, kept) && r in kept && w in kept
    requires Agree(root.columns, PrimaryKey, r, s) && Agree(root.columns, PrimaryKey, w, s)
    ensures r == w
  {
    var i, j :| 0 <= i < |kept| && 0 <= j < |kept| && kept[i] == r && kept[j] == w;
    assert Agree(root.columns, PrimaryKey, r, w) && Agree(root.columns, PrimaryKey, w, r);
    assert i < j || j < i || i == j;
  }

  // ---------------------------------------------------------------------------------------
  // Delete-insert into a chain

  /** Whether a tree of the destination goes: a staged row replaces the root row with its row key. */
  ghost predicate TreeGoes(root: TableSchema, before: seq<Row>, staged: seq<Row>, rk: Column, k: Value) {
    exists d :: d in before && Get(d, rk) == k && Replaced(root, staged, d)
  }

  /** Whether a staged tree comes: the root row with its row key counts and is not marked as deleted. */
  ghost predicate TreeComes(root: TableSchema, kept: seq<Row>, rk: Column, k: Value) {
    exists w :: w in kept && Get(w, rk) == k && !Excluded(root, w)
  }

  /** What a merge makes of a table whose rows refer to root rows by `g`: the old rows of trees that do
      not go, and the staged rows of trees that come. */
  ghost predicate MergedTree(db: Database, db': Database, root: TableSchema, t: TableSchema, kept: seq<Row>, rk: Column,
                             g: Column)
  {
    forall n :: multiset(Rows(db', Dest(t.name)))[n]
      == (if TreeGoes(root, Rows(db, Dest(root.name)), Rows(db, Staging(root.name)), rk, Get(n, g)) then 0
          else multiset(Rows(db, Dest(t.name)))[n])
         + (if TreeComes(root, kept, rk, Get(n, g)) then multiset(Rows(db, Staging(t.name)))[n] else 0)
  }

  /** The inserts look up the rows of this table by the root key of the last one, unless no accepted
      root rows are listed. */
  ghost predicate FoundByLast(chain: seq<TableSchema>, g: Column)
    requires chain != []
  {
    || IsRootKey(chain[0], chain[|chain| - 1], g)
    || (!Hinted(chain[0].columns, PrimaryKey) && !Hinted(chain[0].columns, HardDelete))
  }

  ghost predicate RefersToRoot(db: Database, root: TableSchema, t: TableSchema, rk: Column) {
    exists g :: IsRootKey(root, t, g) && Refers(Rows(db, Dest(t.name)), g, Rows(db, Dest(root.name)), rk)
                && Refers(Rows(db, Staging(t.name)), g, Rows(db, Staging(root.name)), rk)
  }

  /** A chain to be merged by a primary or a merge key. Row keys identify root rows on both sides, and
      nested rows refer to root rows of their own side by the root key of their table. */
  ghost predicate ChainReady(db: Database, chain: seq<TableSchema>, rk: Column) {
    && |chain| >= 2 && DistinctNames(chain)
    && chain[0].parent.None? && (forall i :: 1 <= i < |chain| ==> chain[i].parent.Some?)
    && (Hinted(chain[0].columns, PrimaryKey) || Hinted(chain[0].columns, MergeKey))
    && IsRowKey(chain[0], rk)
    && (forall i :: 0 <= i < |chain| ==> HaveColumns(Rows(db, Staging(chain[i].name)), chain[i].columns))
    && Unique(Rows(db, Dest(chain[0].name)), rk) && Unique(Rows(db, Staging(chain[0].name)), rk)
    && (forall i :: 1 <= i < |chain| ==> RefersToRoot(db, chain[0], chain[i], rk))
    && (chain[0].deduplicated ==> Distinguished(chain[0], Rows(db, Staging(chain[0].name))))
  }

  /** The whole chain after a merge: the root table, and every nested table whose rows are looked up by
      its own root key. */
  ghost predicate MergedChain(db: Database, db': Database, chain: seq<TableSchema>, kept: seq<Row>, rk: Column)
    requires chain != []
  {
    && MergedRoot(chain[0], Rows(db, Dest(chain[0].name)), Rows(db, Staging(chain[0].name)), kept,
                  Rows(db', Dest(chain[0].name)))
    && forall i, g :: 1 <= i < |chain| && IsRootKey(chain[0], chain[i], g) && FoundByLast(chain, g) ==>
         MergedTree(db, db', chain[0], chain[i], kept, rk, g)
  }

  lemma ChainSane(db: Database, chain: seq<TableSchema>, rk: Column)
    requires ChainReady(db, chain, rk)
    ensures Mergeable(chain, rk) && Sane(db, chain, rk)
  {
    hide RowKeyCol, RootKeyCol, IsRowKey, IsRootKey, HaveColumns, Shaped, AllColumns, Unique, Refers, Distinguished,
         KeysDiffer, ColumnsWith, Hinted;
    RowKeyExactly(chain[0]);
    NoColumns(chain[0].columns, PrimaryKey);
    NoColumns(chain[0].columns, MergeKey);
    DistinguishedMeans(chain[0], Rows(db, Staging(chain[0].name)));
    forall i | 0 <= i < |chain| ensures Shaped(Rows(db, Staging(chain[i].name)), AllColumns(chain[i].columns)) {
      AllMeans(Rows(db, Staging(chain[i].name)), chain[i].columns);
    }
    forall i | 1 <= i < |chain|
      ensures RootKeyCol(chain[0], chain[i]).Ok?
      ensures Refers(Rows(db, Dest(chain[i].name)), OwnKey(chain, i, rk), Rows(db, Dest(chain[0].name)), rk)
      ensures Refers(Rows(db, Staging(chain[i].name)), OwnKey(chain, i, rk), Rows(db, Staging(chain[0].name)), rk)
    {
      RootKeyExactly(chain[0], chain[i]);
    }
  }

  lemma GoesMeans(db: Database, root: TableSchema, rk: Column, k: Value)
    requires Hinted(root.columns, PrimaryKey) || Hinted(root.columns, MergeKey)
    ensures k in Doomed(db, root, rk)
            <==> TreeGoes(root, Rows(db, Dest(root.name)), Rows(db, Staging(root.name)), rk, k)
  {
    hide Replaced, MatchedBy, Hinted, Get;
    var before, staged := Rows(db, Dest(root.name)), Rows(db, Staging(root.name));
    forall d ensures MatchedIn(staged, Clauses(root))(d) <==> Replaced(root, staged, d) {
      ReplacedMeans(root, staged, d);
    }
    assert k in Doomed(db, root, rk) <==>
      exists d :: d in Filter(before, MatchedIn(staged, Clauses(root))) && Get(d, rk) == k;
  }

  lemma ComesMeans(db: Database, root: TableSchema, rk: Column, choose: Chooser, k: Value)
    ensures k in Accepted(db, root, rk, choose) <==> TreeComes(root, Candidates(db, root, choose), rk, k)
  {
    hide Excluded, Live, Candidates, Get;
    var kept := Candidates(db, root, choose);
    forall w ensures LiveIn(root)(w) <==> !Excluded(root, w) {
      ExcludedMeans(root, w);
    }
    assert k in Accepted(db, root, rk, choose) <==> exists w :: w in Filter(kept, LiveIn(root)) && Get(w, rk) == k;
  }

  lemma TreeMerged(db: Database, db': Database, root: TableSchema, t: TableSchema, rk: Column, g: Column,
                   choose: Chooser)
    requires Hinted(root.columns, PrimaryKey) || Hinted(root.columns, MergeKey)
    requires Rows(db', Dest(t.name)) == Without(Rows(db, Dest(t.name)), g, Doomed(db, root, rk))
                                        + Within(Rows(db, Staging(t.name)), g, Accepted(db, root, rk, choose))
    ensures MergedTree(db, db', root, t, Candidates(db, root, choose), rk, g)
  {
    hide Get, Doomed, Accepted, Candidates, TreeGoes, TreeComes, Hinted;
    forall n
      ensures multiset(Rows(db', Dest(t.name)))[n]
              == (if TreeGoes(root, Rows(db, Dest(root.name)), Rows(db, Staging(root.name)), rk, Get(n, g)) then 0
                  else multiset(Rows(db, Dest(t.name)))[n])
                 + (if TreeComes(root, Candidates(db, root, choose), rk, Get(n, g))
                    then multiset(Rows(db, Staging(t.name)))[n] else 0)
    {
      GoesMeans(db, root, rk, Get(n, g));
      ComesMeans(db, root, rk, choose, Get(n, g));
      FilterCounts(Rows(db, Dest(t.name)), KeyNotIn(g, Doomed(db, root, rk)), n);
      FilterCounts(Rows(db, Staging(t.name)), KeyIn(g, Accepted(db, root, rk, choose)), n);
    }
  }

  /** In the root table, whose rows are identified by the row key, trees are single rows. */
  lemma RootIsTree(db: Database, db': Database, root: TableSchema, kept: seq<Row>, rk: Column)
    requires MergedTree(db, db', root, root, kept, rk, rk)
    requires OneOfEach(root, Rows(db, Staging(root.name)), kept)
    requires Unique(Rows(db, Dest(root.name)), rk) && Unique(Rows(db, Staging(root.name)), rk)
    ensures MergedRoot(root, Rows(db, Dest(root.name)), Rows(db, Staging(root.name)), kept, Rows(db', Dest(root.name)))
  {
    hide Get, Replaced, Excluded, OneOfEach, Unique, MergedTree;
    var before, staged, after := Rows(db, Dest(root.name)), Rows(db, Staging(root.name)), Rows(db', Dest(root.name));
    KeptAreStaged(root, staged, kept, rk);
    forall r
      ensures multiset(after)[r] == (if Replaced(root, staged, r) then 0 else multiset(before)[r])
                                    + (if Excluded(root, r) then 0 else multiset(kept)[r])
    {
      TreeCounts(db, db', root, root, kept, rk, rk, r);
      RowGoes(root, before, staged, rk, r);
      RowComes(root, staged, kept, rk, r);
    }
  }

  lemma TreeCounts(db: Database, db': Database, root: TableSchema, t: TableSchema, kept: seq<Row>, rk: Column,
                   g: Column, n: Row)
    requires MergedTree(db, db', root, t, kept, rk, g)
    ensures multiset(Rows(db', Dest(t.name)))[n]
            == (if TreeGoes(root, Rows(db, Dest(root.name)), Rows(db, Staging(root.name)), rk, Get(n, g)) then 0
                else multiset(Rows(db, Dest(t.name)))[n])
               + (if TreeComes(root, kept, rk, Get(n, g)) then multiset(Rows(db, Staging(t.name)))[n] else 0)
  {
  }

  lemma KeptAreStaged(root: TableSchema, staged: seq<Row>, kept: seq<Row>, rk: Column)
    requires OneOfEach(root, staged, kept) && Unique(staged, rk)
    ensures (forall w :: w in kept ==> w in staged) && Unique(kept, rk)
  {
    hide Get, Extreme, Hinted;
    if Hinted(root.columns, PrimaryKey) {
      forall i, j | 0 <= i < j < |kept| ensures Get(kept[i], rk) != Get(kept[j], rk) {
        if Get(kept[i], rk) == Get(kept[j], rk) {
          UniqueRow(staged, rk, kept[i], kept[j]);
          AgreeWithSelf(root, kept[i]);
        }
      }
    }
  }

  lemma AgreeWithSelf(root: TableSchema, r: Row)
    ensures Agree(root.columns, PrimaryKey, r, r)
  {
  }

  lemma RowGoes(root: TableSchema, before: seq<Row>, staged: seq<Row>, rk: Column, r: Row)
    requires Unique(before, rk)
    ensures (if TreeGoes(root, before, staged, rk, Get(r, rk)) then 0 else multiset(before)[r])
            == if Replaced(root, staged, r) then 0 else multiset(before)[r]
  {
    hide Get, Replaced;
    if r in before {
      forall d | d in before && Get(d, rk) == Get(r, rk) ensures d == r {
        UniqueRow(before, rk, d, r);
      }
    } else {
      assert multiset(before)[r] == 0;
    }
  }

  lemma RowComes(root: TableSchema, staged: seq<Row>, kept: seq<Row>, rk: Column, r: Row)
    requires Unique(staged, rk) && Unique(kept, rk) && forall w :: w in kept ==> w in staged
    ensures (if TreeComes(root, kept, rk, Get(r, rk)) then multiset(staged)[r] else 0)
            == if Excluded(root, r) then 0 else multiset(kept)[r]
  {
    hide Get, Excluded;
    if r in staged {
      forall w | w in staged && Get(w, rk) == Get(r, rk) ensures w == r {
        UniqueRow(staged, rk, w, r);
      }
      OnceEach(staged, rk, r);
      OnceEach(kept, rk, r);
    } else {
      assert multiset(staged)[r] == 0 && multiset(kept)[r] == 0;
    }
  }

  lemma {:induction false} OnceEach(rows: seq<Row>, c: Column, r: Row)
    requires Unique(rows, c)
    ensures multiset(rows)[r] == if r in rows then 1 else 0
  {
    hide Get;
    if rows != [] {
      OnceEach(rows[1..], c, r);
      assert rows == [rows[0]] + rows[1..];
      if r == rows[0] {
        forall j | 0 <= j < |rows[1..]| ensures rows[1..][j] != r {
          assert rows[1..][j] == rows[j + 1];
        }
      }
    }
  }

  /** The root key that is looked up for the i-th table is its own. */
  lemma OwnIsLookedUp(chain: seq<TableSchema>, i: nat, rk: Column, g: Column)
    requires Mergeable(chain, rk) && 1 <= i < |chain| && IsRootKey(chain[0], chain[i], g) && FoundByLast(chain, g)
    ensures OwnKey(chain, i, rk) == InsertKey(chain, i, rk) == g
  {
    hide RootKeyCol, RowKeyCol, IsRootKey, ColumnsWith, FirstWith, Hinted;
    RootKeyExactly(chain[0], chain[i]);
    RootKeyExactly(chain[0], chain[|chain| - 1]);
    NoColumns(chain[0].columns, PrimaryKey);
    FirstMeans(chain[0].columns, HardDelete);
  }

  lemma RootMerged(db: Database, db': Database, chain: seq<TableSchema>, rk: Column, choose: Chooser)
    requires ChainReady(db, chain, rk)
    requires Rows(db', Dest(chain[0].name))
             == Without(Rows(db, Dest(chain[0].name)), rk, Doomed(db, chain[0], rk))
                + Within(Rows(db, Staging(chain[0].name)), rk, Accepted(db, chain[0], rk, choose))
    ensures MergedRoot(chain[0], Rows(db, Dest(chain[0].name)), Rows(db, Staging(chain[0].name)),
                       Candidates(db, chain[0], choose), Rows(db', Dest(chain[0].name)))
  {
    var root := chain[0];
    hide ChainReady, MergedTree, MergedRoot, OneOfEach, Doomed, Accepted, Within, Without, Candidates, Unique;
    ReadyRoot(db, chain, rk);
    CandidatesByHint(db, root, choose);
    TreeMerged(db, db', root, root, rk, rk, choose);
    RootIsTree(db, db', root, Candidates(db, root, choose), rk);
  }

  lemma ReadyRoot(db: Database, chain: seq<TableSchema>, rk: Column)
    requires ChainReady(db, chain, rk)
    ensures |chain| >= 2 && (Hinted(chain[0].columns, PrimaryKey) || Hinted(chain[0].columns, MergeKey))
    ensures Unique(Rows(db, Dest(chain[0].name)), rk) && Unique(Rows(db, Staging(chain[0].name)), rk)
  {
  }

  lemma ChainMerged(db: Database, db': Database, chain: seq<TableSchema>, rk: Column, choose: Chooser)
    requires ChainReady(db, chain, rk) && Mergeable(chain, rk)
    requires forall i :: 0 <= i < |chain| ==>
               Rows(db', Dest(chain[i].name))
               == Without(Rows(db, Dest(chain[i].name)), OwnKey(chain, i, rk), Doomed(db, chain[0], rk))
                  + Incoming(db, chain, i, rk, choose)
    ensures MergedChain(db, db', chain, Candidates(db, chain[0], choose), rk)
  {
    hide ChainReady, Mergeable, MergedTree, MergedRoot, Doomed, Accepted, Within, Without, Candidates, OwnKey,
         InsertKey, IsRootKey, FoundByLast, Hinted;
    ReadyRoot(db, chain, rk);
    RootIsOwn(chain, rk);
    RootMerged(db, db', chain, rk, choose);
    forall i, g | 1 <= i < |chain| && IsRootKey(chain[0], chain[i], g) && FoundByLast(chain, g)
      ensures MergedTree(db, db', chain[0], chain[i], Candidates(db, chain[0], choose), rk, g)
    {
      OwnIsLookedUp(chain, i, rk, g);
      TreeMerged(db, db', chain[0], chain[i], rk, g, choose);
    }
  }

  /** Delete-insert on a root table with nested tables: whole trees are replaced, and of the staged trees
      come those whose root row counts and is not marked as deleted. */
  lemma TreesByHint(db: Database, chain: seq<TableSchema>, tempForDelete: bool, rk: Column, choose: Chooser)
    requires ChainReady(db, chain, rk)
    ensures MergeSql(chain, tempForDelete).Ok?
    ensures exists kept :: MergedChain(db, Run(db, MergeSql(chain, tempForDelete).value, choose), chain, kept, rk)
  {
    hide *;
    ReadyRoot(db, chain, rk);
    ChainSane(db, chain, rk);
    NestedMergeResult(db, chain, tempForDelete, rk, choose);
    ChainMerged(db, Run(db, MergeSql(chain, tempForDelete).value, choose), chain, rk, choose);
  }

  // ---------------------------------------------------------------------------------------
  // Upsert

  ghost predicate KeyThere(root: TableSchema, rows: seq<Row>, r: Row) {
    exists s :: s in rows && Agree(root.columns, PrimaryKey, s, r)
  }

  /** What an upsert makes of the root table: every staged row, unless its primary key was there and it is
      marked as deleted, and the old rows whose primary key was not staged. */
  ghost predicate UpsertedRoot(root: TableSchema, before: seq<Row>, staged: seq<Row>, after: seq<Row>) {
    && Distinguished(root, after)
    && forall r :: r in after <==>
         || (r in staged && !(Marked(root, r) && KeyThere(root, before, r)))
         || (r in before && !KeyThere(root, staged, r))
  }

  ghost predicate RootStaged(staged: seq<Row>, rk: Column, k: Value) {
    exists s :: s in staged && Get(s, rk) == k
  }

  ghost predicate RootMarked(root: TableSchema, staged: seq<Row>, rk: Column, k: Value) {
    exists s :: s in staged && Get(s, rk) == k && Marked(root, s)
  }

  /** What it makes of a nested table with row key `nrk` whose rows refer to root rows by `g`: the staged
      rows, unless the staged root row is marked as deleted, and the old rows whose root was not staged. */
  ghost predicate UpsertedNested(db: Database, db': Database, root: TableSchema, t: TableSchema, rk: Column,
                                 nrk: Column, g: Column)
  {
    var roots := Rows(db, Staging(root.name));
    && Unique(Rows(db', Dest(t.name)), nrk)
    && forall n :: n in Rows(db', Dest(t.name)) <==>
         || (n in Rows(db, Staging(t.name)) && !RootMarked(root, roots, rk, Get(n, g)))
         || (n in Rows(db, Dest(t.name)) && !RootStaged(roots, rk, Get(n, g)))
  }

  /** Rows of both sides are identified by the row key, one row key belongs to one root, and staged rows
      refer to staged roots. */
  ghost predicate NestedUpsertable(db: Database, root: TableSchema, t: TableSchema, rk: Column, nrk: Column,
                                   g: Column)
  {
    var rows, staged := Rows(db, Dest(t.name)), Rows(db, Staging(t.name));
    && HaveColumns(rows, t.columns) && HaveColumns(staged, t.columns) && Unique(rows, nrk) && Unique(staged, nrk)
    && Refers(staged, g, Rows(db, Staging(root.name)), rk)
    && forall d, s :: d in rows && s in staged && Get(d, nrk) == Get(s, nrk) ==> Get(d, g) == Get(s, g)
  }

  ghost predicate UpsertReady(db: Database, chain: seq<TableSchema>, rk: Column) {
    && chain != [] && DistinctNames(chain) && Hinted(chain[0].columns, PrimaryKey)
    && HaveColumns(Rows(db, Dest(chain[0].name)), chain[0].columns)
    && HaveColumns(Rows(db, Staging(chain[0].name)), chain[0].columns)
    && Distinguished(chain[0], Rows(db, Dest(chain[0].name)))
    && Distinguished(chain[0], Rows(db, Staging(chain[0].name)))
    && (|chain| > 1 ==> IsRowKey(chain[0], rk))
    && forall i :: 1 <= i < |chain| ==> HasUpsertKeys(db, chain[0], chain[i], rk)
  }

  ghost predicate HasUpsertKeys(db: Database, root: TableSchema, t: TableSchema, rk: Column) {
    exists nrk, g :: IsRowKey(t, nrk) && IsRootKey(root, t, g) && NestedUpsertable(db, root, t, rk, nrk, g)
  }

  lemma UniqueMeans(rows: seq<Row>, c: Column)
    ensures KeysDiffer(rows, [c]) <==> Unique(rows, c)
  {
    hide Get, KeyOf;
    forall i, j | 0 <= i < j < |rows|
      ensures KeyOf(rows[i], [c]) == KeyOf(rows[j], [c]) <==> Get(rows[i], c) == Get(rows[j], c)
    {
      OneKey(rows[i], rows[j], c);
    }
  }

  lemma NestedIsReady(db: Database, root: TableSchema, t: TableSchema, rk: Column)
    requires HasUpsertKeys(db, root, t, rk)
    ensures TableReady(db, root, t, rk)
  {
    hide Get, KeyOf, IsRowKey, IsRootKey, RowKeyCol, RootKeyCol, AllColumns, HaveColumns, Shaped, KeysDiffer, Unique,
         Refers;
    var nrk, g :| IsRowKey(t, nrk) && IsRootKey(root, t, g) && NestedUpsertable(db, root, t, rk, nrk, g);
    RowKeyExactly(t);
    RootKeyExactly(root, t);
    AllMeans(Rows(db, Dest(t.name)), t.columns);
    AllMeans(Rows(db, Staging(t.name)), t.columns);
    UniqueMeans(Rows(db, Dest(t.name)), nrk);
    UniqueMeans(Rows(db, Staging(t.name)), nrk);
  }

  lemma ChainIsReady(db: Database, chain: seq<TableSchema>, rk: Column)
    requires UpsertReady(db, chain, rk)
    ensures Ready(db, chain, rk)
  {
    hide IsRowKey, RowKeyCol, AllColumns, ColumnsWith, HaveColumns, Shaped, KeysDiffer, Distinguished, TableReady,
         HasUpsertKeys, Hinted;
    var root := chain[0];
    NoColumns(root.columns, PrimaryKey);
    RowKeyExactly(root);
    AllMeans(Rows(db, Dest(root.name)), root.columns);
    AllMeans(Rows(db, Staging(root.name)), root.columns);
    DistinguishedMeans(root, Rows(db, Dest(root.name)));
    DistinguishedMeans(root, Rows(db, Staging(root.name)));
    forall i | 1 <= i < |chain| ensures TableReady(db, root, chain[i], rk) {
      NestedIsReady(db, root, chain[i], rk);
    }
  }

  lemma UnmatchedMeansByHint(root: TableSchema, rows: seq<Row>, r: Row)
    ensures Unmatched(r, rows, PrimaryKeys(root)) <==> !KeyThere(root, rows, r)
  {
    hide KeyOf, Agree, ColumnsWith;
    var pk := PrimaryKeys(root);
    forall s ensures KeyOf(s, pk) == KeyOf(r, pk) <==> Agree(root.columns, PrimaryKey, s, r) {
      AgreeMeans(root.columns, PrimaryKey, s, r);
    }
  }

  lemma RemovesMeans(db: Database, root: TableSchema, r: Row)
    ensures Removes(db, Deleted(root), r) <==> Marked(root, r)
  {
    hide Deleted, Holds, Marked;
    MarkedMeans(root, r);
    if Deleted(root).Some? {
      DeletedMeans(db, root, r);
    }
  }

  lemma RootByHint(db: Database, root: TableSchema, after: seq<Row>)
    requires RootResult(db, root, after)
    ensures UpsertedRoot(root, Rows(db, Dest(root.name)), Rows(db, Staging(root.name)), after)
  {
    hide KeysDiffer, Distinguished, Unmatched, KeyThere, Removes, Marked, ColumnsWith, Deleted;
    DistinguishedMeans(root, after);
    var before, staged := Rows(db, Dest(root.name)), Rows(db, Staging(root.name));
    forall r
      ensures InMerged(db, r, before, staged, PrimaryKeys(root), Deleted(root)) <==>
        || (r in staged && !(Marked(root, r) && KeyThere(root, before, r)))
        || (r in before && !KeyThere(root, staged, r))
    {
      UnmatchedMeansByHint(root, before, r);
      UnmatchedMeansByHint(root, staged, r);
      RemovesMeans(db, root, r);
    }
  }

  lemma NestedByHint(db: Database, db': Database, root: TableSchema, t: TableSchema, rk: Column, nrk: Column, g: Column)
    requires NestedResult(db, root, t, rk, nrk, g, Rows(db', Dest(t.name)))
    ensures UpsertedNested(db, db', root, t, rk, nrk, g)
  {
    hide KeysDiffer, Unique, DeadRoots, StagedRoots, RootStaged, RootMarked, Get;
    UniqueMeans(Rows(db', Dest(t.name)), nrk);
    forall k
      ensures k in StagedRoots(db, root, rk) <==> RootStaged(Rows(db, Staging(root.name)), rk, k)
      ensures k in DeadRoots(db, root, rk) <==> RootMarked(root, Rows(db, Staging(root.name)), rk, k)
    {
      RootsMean(db, root, rk, k);
    }
  }

  lemma RootsMean(db: Database, root: TableSchema, rk: Column, k: Value)
    ensures k in StagedRoots(db, root, rk) <==> RootStaged(Rows(db, Staging(root.name)), rk, k)
    ensures k in DeadRoots(db, root, rk) <==> RootMarked(root, Rows(db, Staging(root.name)), rk, k)
  {
    hide Get, Marked, Deleted, Holds;
    var staged := Rows(db, Staging(root.name));
    forall s ensures DeletedIn(root)(s) <==> Marked(root, s) {
      MarkedMeans(root, s);
    }
    assert k in DeadRoots(db, root, rk) <==> exists s :: s in Filter(staged, DeletedIn(root)) && Get(s, rk) == k;
  }

  /** Upsert on a root table and its nested tables: a staged row takes the place of the row with its
      primary key, with its nested rows, unless it is marked as deleted; then nothing takes it. */
  lemma UpsertedByHint(db: Database, chain: seq<TableSchema>, rk: Column, choose: Chooser)
    requires UpsertReady(db, chain, rk)
    ensures UpsertSql(chain).Ok?
    ensures
      var db', root := Run(db, UpsertSql(chain).value, choose), chain[0];
      && UpsertedRoot(root, Rows(db, Dest(root.name)), Rows(db, Staging(root.name)), Rows(db', Dest(root.name)))
      && forall i, nrk, g :: 1 <= i < |chain| && IsRowKey(chain[i], nrk) && IsRootKey(root, chain[i], g) ==>
           UpsertedNested(db, db', root, chain[i], rk, nrk, g)
  {
    hide UpsertReady, Ready, Run, UpsertSql, RootResult, UpsertedRoot, UpsertedNested, NestedResult, IsRowKey,
         IsRootKey, RowKeyCol, RootKeyCol;
    ChainNonempty(db, chain, rk);
    ChainIsReady(db, chain, rk);
    UpsertResult(db, chain, rk, choose);
    var db', root := Run(db, UpsertSql(chain).value, choose), chain[0];
    RootByHint(db, root, Rows(db', Dest(root.name)));
    forall i, nrk, g | 1 <= i < |chain| && IsRowKey(chain[i], nrk) && IsRootKey(root, chain[i], g)
      ensures UpsertedNested(db, db', root, chain[i], rk, nrk, g)
    {
      RowKeyExactly(chain[i]);
      RootKeyExactly(root, chain[i]);
      assert TableResult(db, db', root, chain[i], rk);
      NestedByHint(db, db', root, chain[i], rk, nrk, g);
    }
  }

  lemma ChainNonempty(db: Database, chain: seq<TableSchema>, rk: Column)
    requires UpsertReady(db, chain, rk)
    ensures chain != []
  {
  }

  // ---------------------------------------------------------------------------------------
  // When statements are generated

  lemma {:induction false} DeletesExist(root: TableSchema, nested: seq<TableSchema>, rk: Column)
    ensures NestedDeletes(root, nested, rk).Ok? <==> forall t :: t in nested ==> HasRootKey(root, t)
    decreases nested
  {
    hide RootKeyCol, HasRootKey;
    if nested != [] {
      var n := |nested| - 1;
      DeletesExist(root, nested[..n], rk);
      RootKeyExactly(root, nested[n]);
      assert forall t :: t in nested <==> t in nested[..n] || t == nested[n];
    }
  }

  lemma KeysFound(root: TableSchema, t: TableSchema)
    ensures RowKeyCol(t).Ok? <==> HasRowKey(t)
    ensures RootKeyCol(root, t).Ok? <==> HasRootKey(root, t)
  {
    hide *;
    RowKeyExactly(t);
    RootKeyExactly(root, t);
  }

  lemma {:induction false} UpsertsExist(root: TableSchema, nested: seq<TableSchema>, rk: Column)
    ensures NestedUpserts(root, nested, rk).Ok? <==> forall t :: t in nested ==> HasRowKey(t) && HasRootKey(root, t)
    decreases nested
  {
    hide RowKeyCol, RootKeyCol, HasRowKey, HasRootKey, NestedUpsert;
    if nested != [] {
      var n := |nested| - 1;
      UpsertsExist(root, nested[..n], rk);
      KeysFound(root, nested[n]);
      assert forall t :: t in nested <==> t in nested[..n] || t == nested[n];
    }
  }

  /** Delete-insert statements are generated if and only if: with a primary or a merge key, the deletes need
      no row keys or the root has one and every nested table a root key; and without, there are no
      nested tables or no column to mark rows as deleted. */
  lemma MergeGenerated(chain: seq<TableSchema>, tempForDelete: bool)
    requires chain != []
    ensures MergeSql(chain, tempForDelete).Ok? <==>
      var root, nested := chain[0], chain[1..];
      if Hinted(root.columns, PrimaryKey) || Hinted(root.columns, MergeKey) then
        (nested == [] && !tempForDelete) || (HasRowKey(root) && forall t :: t in nested ==> HasRootKey(root, t))
      else nested == [] || !Hinted(root.columns, HardDelete)
  {
    hide RowKeyCol, RootKeyCol, HasRowKey, HasRootKey, Hinted, ColumnsWith, NestedDeletes, Inserts, DedupQuery,
         FirstWith;
    var root := chain[0];
    NoColumns(root.columns, PrimaryKey);
    NoColumns(root.columns, MergeKey);
    FirstMeans(root.columns, HardDelete);
    RowKeyExactly(root);
    if RowKeyCol(root).Ok? {
      DeletesExist(root, chain[1..], RowKeyCol(root).value);
    }
  }

  /** Upsert statements are generated if and only if there are no nested tables, or all tables have row keys
      and nested ones root keys. */
  lemma UpsertGenerated(chain: seq<TableSchema>)
    requires chain != []
    ensures UpsertSql(chain).Ok? <==>
      var root, nested := chain[0], chain[1..];
      nested == [] || (HasRowKey(root) && forall t :: t in nested ==> HasRowKey(t) && HasRootKey(root, t))
  {
    hide RowKeyCol, RootKeyCol, HasRowKey, HasRootKey, NestedUpserts, RootUpsert;
    RowKeyExactly(chain[0]);
    if RowKeyCol(chain[0]).Ok? {
      UpsertsExist(chain[0], chain[1..], RowKeyCol(chain[0]).value);
    }
  }
}
