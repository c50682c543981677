/**
  Merging the same staged rows again: root tables with nested ones by delete-insert, and upserts.
*/
module MergeTwice {
  import opened Options
  import opened SqlModel
  import opened SqlMerge
  import opened RowFacts
  import opened DeleteInsert
  import opened SingleTableMerge
  import opened Upsert

  // ---------------------------------------------------------------------------------------
  // Delete-insert of whole trees

  /** What is in the i-th table after a merge: the rows of the trees that stay, and those of the trees
      that come. */
  ghost function Staying(db: Database, chain: seq<TableSchema>, i: nat, rk: Column): seq<Row>
    requires i < |chain|
  {
    Without(Rows(db, Dest(chain[i].name)), OwnKey(chain, i, rk), Doomed(db, chain[0], rk))
  }

  ghost function Coming(db: Database, chain: seq<TableSchema>, i: nat, rk: Column, choose: Chooser): seq<Row>
    requires i < |chain|
  {
    Within(Rows(db, Staging(chain[i].name)), OwnKey(chain, i, rk), Accepted(db, chain[0], rk, choose))
  }

  ghost predicate AllFindOwn(chain: seq<TableSchema>, rk: Column) {
    forall i :: 0 <= i < |chain| ==> FindsOwn(chain, i, rk)
  }

  lemma MergedOnce(db: Database, chain: seq<TableSchema>, tempForDelete: bool, rk: Column, choose: Chooser)
    requires Mergeable(chain, rk) && Sane(db, chain, rk) && AllFindOwn(chain, rk)
    ensures MergeSql(chain, tempForDelete).Ok?
    ensures
      var db' := Run(db, MergeSql(chain, tempForDelete).value, choose);
      && (forall i :: 0 <= i < |chain| ==>
            Rows(db', Dest(chain[i].name)) == Staying(db, chain, i, rk) + Coming(db, chain, i, rk, choose))
      && (forall name :: Rows(db', Staging(name)) == Rows(db, Staging(name)))
      && (Unique(Rows(db', Dest(chain[0].name)), rk) ==> Sane(db', chain, rk))
  {
    hide Mergeable, Run, MergeSql, Doomed, Accepted, Within, Without, OwnKey, InsertKey, FindsOwn, Refers, Unique,
         Shaped, KeysDiffer;
    NestedMergeResult(db, chain, tempForDelete, rk, choose);
    ReferentialIntegrityKept(db, chain, tempForDelete, rk, choose);
    forall i | 0 <= i < |chain| ensures InsertKey(chain, i, rk) == OwnKey(chain, i, rk) {
      OwnFound(chain, i, rk);
    }
    NoDestIsStaging(chain);
  }

  lemma NoDestIsStaging(chain: seq<TableSchema>)
    ensures forall name :: !IsDest(chain, Staging(name))
  {
  }

  lemma AcceptedAlike(db: Database, db': Database, root: TableSchema, rk: Column, choose: Chooser)
    requires Rows(db', Staging(root.name)) == Rows(db, Staging(root.name))
    ensures Accepted(db', root, rk, choose) == Accepted(db, root, rk, choose)
  {
  }

  /** The second time exactly the trees that came the first time are doomed. */
  lemma DoomedAgain(db: Database, db': Database, chain: seq<TableSchema>, rk: Column, choose: Chooser)
    requires Mergeable(chain, rk) && Sane(db, chain, rk)
    requires Rows(db', Dest(chain[0].name)) == Staying(db, chain, 0, rk) + Coming(db, chain, 0, rk, choose)
    requires Rows(db', Staging(chain[0].name)) == Rows(db, Staging(chain[0].name))
    ensures Doomed(db', chain[0], rk) == Accepted(db, chain[0], rk, choose)
  {
    hide Accepted, MatchedBy, RowKeyCol, RootKeyCol;
    var root := chain[0];
    var staged, matched := Rows(db, Staging(root.name)), MatchedIn(Rows(db, Staging(root.name)), Clauses(root));
    var staying, coming := Staying(db, chain, 0, rk), Coming(db, chain, 0, rk, choose);
    var accepted := Accepted(db, root, rk, choose);
    DoomedAreMatched(db, root, rk);
    FilterNone(staying, matched);
    forall s | s in coming ensures matched(s) {
      MatchesItself(staged, root, s);
    }
    FilterAll(coming, matched);
    FilterConcat(staying, coming, matched);
    assert Filter(staying + coming, matched) == coming;
    AcceptedAreStaged(db, root, rk, choose);
    forall v | v in accepted ensures v in Keys(coming, rk) {
      var s :| s in staged && Get(s, rk) == v;
      assert s in coming;
    }
  }

  lemma MatchesItself(staged: seq<Row>, root: TableSchema, s: Row)
    requires s in staged && (PrimaryKeys(root) != [] || MergeKeys(root) != [])
    ensures MatchedBy(s, staged, Clauses(root))
  {
    var clause := if PrimaryKeys(root) != [] then PrimaryKeys(root) else MergeKeys(root);
    assert clause in Clauses(root) && KeyMatch(s, s, clause);
    assert Matches(s, s, Clauses(root));
  }

  lemma AcceptedAreStaged(db: Database, root: TableSchema, rk: Column, choose: Chooser)
    ensures Accepted(db, root, rk, choose) <= Keys(Rows(db, Staging(root.name)), rk)
  {
    hide KeyOf, Unbeaten, Dedup;
    var staged, candidates := Rows(db, Staging(root.name)), Candidates(db, root, choose);
    if PrimaryKeys(root) != [] {
      DedupKeepsWinners(staged, PrimaryKeys(root), DedupSort(root.columns), choose);
    }
    forall v | v in Accepted(db, root, rk, choose) ensures v in Keys(staged, rk) {
      var s :| s in Filter(candidates, LiveIn(root)) && Get(s, rk) == v;
      assert s in candidates;
      assert PrimaryKeys(root) != [] ==> Wins(s, staged, PrimaryKeys(root), DedupSort(root.columns));
      assert s in staged;
    }
  }

  /** No tree that stays has the row key of one that comes. */
  lemma StayingApart(db: Database, chain: seq<TableSchema>, i: nat, rk: Column, choose: Chooser)
    requires Sane(db, chain, rk) && i < |chain|
    requires Unique(Staying(db, chain, 0, rk) + Coming(db, chain, 0, rk, choose), rk)
    ensures Keys(Staying(db, chain, i, rk), OwnKey(chain, i, rk)) !! Accepted(db, chain[0], rk, choose)
  {
    hide Accepted, Doomed, Unique, KeysDiffer, Shaped, RootKeyCol;
    var root, own := chain[0], OwnKey(chain, i, rk);
    var accepted, doomed := Accepted(db, root, rk, choose), Doomed(db, root, rk);
    var staying, coming := Staying(db, chain, 0, rk), Coming(db, chain, 0, rk, choose);
    UniqueFiltered(Rows(db, Dest(root.name)), rk, KeyNotIn(rk, doomed));
    UniqueConcat(staying, coming, rk);
    AcceptedAreStaged(db, root, rk, choose);
    forall v | v in accepted ensures v in Keys(coming, rk) {
      var s :| s in Rows(db, Staging(root.name)) && Get(s, rk) == v;
      assert s in coming;
    }
    forall n | n in Staying(db, chain, i, rk) ensures Get(n, own) !in accepted {
      var v := Get(n, own);
      assert v in Keys(Rows(db, Dest(chain[i].name)), own) && v !in doomed;
      var r :| r in Rows(db, Dest(root.name)) && Get(r, rk) == v;
      assert r in staying;
    }
  }

  /** What the second merge leaves: the same trees stay, and the trees come that are accepted then. */
  lemma MergedAgain(db: Database, chain: seq<TableSchema>, tempForDelete: bool, rk: Column, c1: Chooser, c2: Chooser)
    requires Mergeable(chain, rk) && Sane(db, chain, rk) && AllFindOwn(chain, rk) && MergeSql(chain, tempForDelete).Ok?
    requires Unique(Rows(Run(db, MergeSql(chain, tempForDelete).value, c1), Dest(chain[0].name)), rk)
    ensures
      var stmts := MergeSql(chain, tempForDelete).value;
      forall i :: 0 <= i < |chain| ==>
        Rows(Run(Run(db, stmts, c1), stmts, c2), Dest(chain[i].name))
        == Staying(db, chain, i, rk) + Coming(db, chain, i, rk, c2)
  {
    hide Run, MergeSql, Doomed, Accepted, OwnKey, Sane, FindsOwn, Unique, Within, Without, Staying, Coming;
    MergedOnce(db, chain, tempForDelete, rk, c1);
    var db' := Run(db, MergeSql(chain, tempForDelete).value, c1);
    MergedOnce(db', chain, tempForDelete, rk, c2);
    DoomedAgain(db, db', chain, rk, c1);
    AcceptedAlike(db, db', chain[0], rk, c2);
    forall i | 0 <= i < |chain|
      ensures Staying(db', chain, i, rk) == Staying(db, chain, i, rk)
      ensures Coming(db', chain, i, rk, c2) == Coming(db, chain, i, rk, c2)
    {
      StayingApart(db, chain, i, rk, c1);
      StaysAgain(db, db', chain, i, rk, c1);
      ComesAlike(db, db', chain, i, rk, c2);
    }
  }

  lemma ComesAlike(db: Database, db': Database, chain: seq<TableSchema>, i: nat, rk: Column, choose: Chooser)
    requires i < |chain| && Accepted(db', chain[0], rk, choose) == Accepted(db, chain[0], rk, choose)
    requires Rows(db', Staging(chain[i].name)) == Rows(db, Staging(chain[i].name))
    ensures Coming(db', chain, i, rk, choose) == Coming(db, chain, i, rk, choose)
  {
  }

  lemma StaysAgain(db: Database, db': Database, chain: seq<TableSchema>, i: nat, rk: Column, choose: Chooser)
    requires i < |chain| && Doomed(db', chain[0], rk) == Accepted(db, chain[0], rk, choose)
    requires Rows(db', Dest(chain[i].name)) == Staying(db, chain, i, rk) + Coming(db, chain, i, rk, choose)
    requires Keys(Staying(db, chain, i, rk), OwnKey(chain, i, rk)) !! Accepted(db, chain[0], rk, choose)
    ensures Staying(db', chain, i, rk) == Staying(db, chain, i, rk)
  {
    hide Accepted, Doomed, OwnKey;
    var staying, coming := Staying(db, chain, i, rk), Coming(db, chain, i, rk, choose);
    var others := KeyNotIn(OwnKey(chain, i, rk), Accepted(db, chain[0], rk, choose));
    forall n | n in staying ensures others(n) {
      assert Get(n, OwnKey(chain, i, rk)) in Keys(staying, OwnKey(chain, i, rk));
    }
    FilterAll(staying, others);
    FilterNone(coming, others);
    FilterConcat(staying, coming, others);
  }

  /** Merging the same staged trees a second time changes no table, however the database breaks ties in
      either run, if and only if there is no primary key or no tie to break. */
  lemma TreesMergedTwice(db: Database, chain: seq<TableSchema>, tempForDelete: bool, rk: Column)
    requires Mergeable(chain, rk) && Sane(db, chain, rk) && AllFindOwn(chain, rk) && MergeSql(chain, tempForDelete).Ok?
    requires forall c :: Unique(Rows(Run(db, MergeSql(chain, tempForDelete).value, c), Dest(chain[0].name)), rk)
    ensures
      var stmts := MergeSql(chain, tempForDelete).value;
      (forall c1, c2, i :: 0 <= i < |chain| ==>
         Rows(Run(Run(db, stmts, c1), stmts, c2), Dest(chain[i].name)) == Rows(Run(db, stmts, c1), Dest(chain[i].name)))
      <==> PrimaryKeys(chain[0]) == [] || NoTies(chain[0], Rows(db, Staging(chain[0].name)))
  {
    hide Run, MergeSql, Doomed, Accepted, OwnKey, Sane, FindsOwn, AllFindOwn, Unique, Staying, Coming, Tie, RowKeyCol,
         RootKeyCol, DistinctNames;
    var stmts, root, staged := MergeSql(chain, tempForDelete).value, chain[0], Rows(db, Staging(chain[0].name));
    if PrimaryKeys(root) == [] || NoTies(root, staged) {
      forall c1, c2, i | 0 <= i < |chain|
        ensures Rows(Run(Run(db, stmts, c1), stmts, c2), Dest(chain[i].name))
             == Rows(Run(db, stmts, c1), Dest(chain[i].name))
      {
        MergedOnce(db, chain, tempForDelete, rk, c1);
        MergedAgain(db, chain, tempForDelete, rk, c1, c2);
        AcceptedEitherWay(db, root, rk, c1, c2);
        ComesEitherWay(db, chain, i, rk, c1, c2);
      }
    } else {
      var r, s :| Tie(root, staged, r, s);
      MergedOnce(db, chain, tempForDelete, rk, Picking(r));
      MergedAgain(db, chain, tempForDelete, rk, Picking(r), Picking(s));
      OthersCome(db, chain, rk, r, s);
      TailsDiffer(Staying(db, chain, 0, rk), Coming(db, chain, 0, rk, Picking(s)),
                  Coming(db, chain, 0, rk, Picking(r)));
      assert Rows(Run(Run(db, stmts, Picking(r)), stmts, Picking(s)), Dest(chain[0].name))
          != Rows(Run(db, stmts, Picking(r)), Dest(chain[0].name));
    }
  }

  lemma TailsDiffer(front: seq<Row>, xs: seq<Row>, ys: seq<Row>)
    ensures front + xs == front + ys ==> xs == ys
  {
    assert (front + xs)[|front|..] == xs && (front + ys)[|front|..] == ys;
  }

  lemma AcceptedEitherWay(db: Database, root: TableSchema, rk: Column, c1: Chooser, c2: Chooser)
    requires PrimaryKeys(root) == [] || NoTies(root, Rows(db, Staging(root.name)))
    ensures Accepted(db, root, rk, c1) == Accepted(db, root, rk, c2)
  {
    hide NoTies, Live, Dedup;
    if PrimaryKeys(root) != [] {
      AddedAlike(Rows(db, Staging(root.name)), root, c1, c2);
    }
  }

  lemma ComesEitherWay(db: Database, chain: seq<TableSchema>, i: nat, rk: Column, c1: Chooser, c2: Chooser)
    requires i < |chain| && Accepted(db, chain[0], rk, c1) == Accepted(db, chain[0], rk, c2)
    ensures Coming(db, chain, i, rk, c1) == Coming(db, chain, i, rk, c2)
  {
  }

  /** Which tree comes depends on how the tie is broken. */
  lemma OthersCome(db: Database, chain: seq<TableSchema>, rk: Column, r: Row, s: Row)
    requires Mergeable(chain, rk) && Sane(db, chain, rk) && PrimaryKeys(chain[0]) != []
    requires Tie(chain[0], Rows(db, Staging(chain[0].name)), r, s)
    ensures Coming(db, chain, 0, rk, Picking(r)) != Coming(db, chain, 0, rk, Picking(s))
  {
    hide Accepted, Live, Picking, Unbeaten, KeyOf, RowKeyCol, RootKeyCol, KeysDiffer;
    var root, staged := chain[0], Rows(db, Staging(chain[0].name));
    OnlyPicked(db, root, rk, r, s);
    OnlyPicked(db, root, rk, s, r);
    var one := if Live(root, r) then r else s;
    assert one in Coming(db, chain, 0, rk, Picking(one));
    assert one !in Coming(db, chain, 0, rk, Picking(if one == r then s else r));
  }

  lemma OnlyPicked(db: Database, root: TableSchema, rk: Column, r: Row, s: Row)
    requires PrimaryKeys(root) != [] && Unique(Rows(db, Staging(root.name)), rk)
    requires Tie(root, Rows(db, Staging(root.name)), r, s)
    ensures Get(r, rk) in Accepted(db, root, rk, Picking(r)) <==> Live(root, r)
    ensures Get(s, rk) !in Accepted(db, root, rk, Picking(r))
  {
    hide Accepted, Live, Picking, Unbeaten, KeyOf, Dedup, Unique, KeysDiffer;
    var staged, pk := Rows(db, Staging(root.name)), PrimaryKeys(root);
    PickedWins(staged, pk, DedupSort(root.columns), r);
    OneAcceptedPerKey(db, root, rk, Picking(r), r);
    OneAcceptedPerKey(db, root, rk, Picking(r), s);
    if s in Candidates(db, root, Picking(r)) {
      SameRow(Candidates(db, root, Picking(r)), pk, r, s);
    }
  }

  // ---------------------------------------------------------------------------------------
  // Upserts

  /** The same rows, each as often. */
  predicate SameRows(xs: seq<Row>, ys: seq<Row>) {
    multiset(xs) == multiset(ys)
  }

  lemma {:induction false} OnceEach(rows: seq<Row>, cs: seq<Column>, r: Row)
    requires KeysDiffer(rows, cs)
    ensures multiset(rows)[r] == if r in rows then 1 else 0
  {
    hide KeyOf;
    if rows != [] {
      OthersDiffer(rows, cs);
      OnceEach(rows[1..], cs, r);
      assert rows == [rows[0]] + rows[1..];
    }
  }

  lemma SameMembers(xs: seq<Row>, ys: seq<Row>, cs: seq<Column>)
    requires KeysDiffer(xs, cs) && KeysDiffer(ys, cs)
    ensures SameRows(xs, ys) <==> forall r :: r in xs <==> r in ys
  {
    hide KeysDiffer;
    forall r ensures multiset(xs)[r] == (if r in xs then 1 else 0) && multiset(ys)[r] == if r in ys then 1 else 0 {
      OnceEach(xs, cs, r);
      OnceEach(ys, cs, r);
    }
    if SameRows(xs, ys) {
      forall r ensures r in xs <==> r in ys {
        assert r in multiset(xs) <==> r in multiset(ys);
      }
    }
  }

  /** After an upsert the chain can be upserted again. */
  lemma ReadyAgain(db: Database, db': Database, chain: seq<TableSchema>, rk: Column)
    requires Ready(db, chain, rk) && RootResult(db, chain[0], Rows(db', Dest(chain[0].name)))
    requires forall i :: 1 <= i < |chain| ==> TableResult(db, db', chain[0], chain[i], rk)
    requires forall name :: Rows(db', Staging(name)) == Rows(db, Staging(name))
    ensures Ready(db', chain, rk)
  {
    hide KeysDiffer, RowKeyCol, RootKeyCol, TableReady, TableResult, KeyOf, Holds, DistinctNames;
    forall i | 1 <= i < |chain| ensures TableReady(db', chain[0], chain[i], rk) {
      TableReadyAgain(db, db', chain[0], chain[i], rk);
    }
  }

  lemma TableReadyAgain(db: Database, db': Database, root: TableSchema, t: TableSchema, rk: Column)
    requires TableReady(db, root, t, rk) && TableResult(db, db', root, t, rk)
    requires Rows(db', Staging(t.name)) == Rows(db, Staging(t.name))
    requires Rows(db', Staging(root.name)) == Rows(db, Staging(root.name))
    ensures TableReady(db', root, t, rk)
  {
    hide KeysDiffer, RowKeyCol, RootKeyCol, KeyOf;
    var nrk, g := RowKeyCol(t).value, RootKeyCol(root, t).value;
    var rows, staged := Rows(db', Dest(t.name)), Rows(db, Staging(t.name));
    forall d, s | d in rows && s in staged && Get(d, nrk) == Get(s, nrk) ensures Get(d, g) == Get(s, g) {
      if d in staged {
        OneKey(d, s, nrk);
        SameRow(staged, [nrk], d, s);
      }
    }
  }

  /** A nested table is the same after a second upsert. */
  lemma NestedAgain(db: Database, db': Database, db'': Database, root: TableSchema, t: TableSchema, rk: Column)
    requires TableReady(db, root, t, rk) && TableResult(db, db', root, t, rk) && TableResult(db', db'', root, t, rk)
    requires Rows(db', Staging(t.name)) == Rows(db, Staging(t.name))
    requires Rows(db', Staging(root.name)) == Rows(db, Staging(root.name))
    ensures SameRows(Rows(db', Dest(t.name)), Rows(db'', Dest(t.name)))
  {
    hide KeysDiffer, RowKeyCol, RootKeyCol, SameRows;
    var nrk, g := RowKeyCol(t).value, RootKeyCol(root, t).value;
    var rows, again := Rows(db', Dest(t.name)), Rows(db'', Dest(t.name));
    forall r ensures r in rows <==> r in again {
      assert r in Rows(db, Staging(t.name)) ==> Get(r, g) in Keys(Rows(db, Staging(t.name)), g);
    }
    SameMembers(rows, again, [nrk]);
  }

  /** The root table is the same after a second upsert exactly when no staged row is marked as deleted. */
  lemma RootAgain(db: Database, db': Database, root: TableSchema, again: seq<Row>)
    requires RootResult(db, root, Rows(db', Dest(root.name))) && RootResult(db', root, again)
    requires Rows(db', Staging(root.name)) == Rows(db, Staging(root.name))
    requires KeysDiffer(Rows(db, Staging(root.name)), PrimaryKeys(root))
    ensures SameRows(Rows(db', Dest(root.name)), again)
            <==> forall s :: s in Rows(db, Staging(root.name)) ==> !DeletedIn(root)(s)
  {
    hide KeyOf, KeysDiffer, Holds, SameRows, Removes, DeletedIn;
    var pk, rows, staged := PrimaryKeys(root), Rows(db', Dest(root.name)), Rows(db, Staging(root.name));
    SameMembers(rows, again, pk);
    if s :| s in staged && DeletedIn(root)(s) {
      Toggles(db, db', root, again, s);
    } else {
      forall s | s in staged ensures !Removes(db, Deleted(root), s) && !Removes(db', Deleted(root), s) {
        NotRemoved(db, root, s);
        NotRemoved(db', root, s);
      }
      forall r ensures r in rows <==> r in again {
        assert r in rows <==> r in staged || (r in Rows(db, Dest(root.name)) && Unmatched(r, staged, pk));
      }
    }
  }

  lemma NotRemoved(db: Database, root: TableSchema, s: Row)
    requires !DeletedIn(root)(s)
    ensures !Removes(db, Deleted(root), s)
  {
    if Deleted(root).Some? {
      DeletedMeans(db, root, s);
    }
  }

  /** A row that is marked as deleted goes where it was, and comes where it was not. */
  lemma Toggles(db: Database, db': Database, root: TableSchema, again: seq<Row>, s: Row)
    requires RootResult(db, root, Rows(db', Dest(root.name))) && RootResult(db', root, again)
    requires Rows(db', Staging(root.name)) == Rows(db, Staging(root.name))
    requires KeysDiffer(Rows(db, Staging(root.name)), PrimaryKeys(root))
    requires s in Rows(db, Staging(root.name)) && DeletedIn(root)(s)
    ensures s in again <==> s !in Rows(db', Dest(root.name))
  {
    hide KeyOf, RootResult, Holds, KeysDiffer, DeletedIn;
    var pk, rows := PrimaryKeys(root), Rows(db', Dest(root.name));
    KeyAfterUpsert(db, root, rows, s);
    KeyAfterUpsert(db', root, again, s);
    InSameKey(rows, pk, s);
    InSameKey(again, pk, s);
    if HasWinner(rows, pk, KeyOf(s, pk)) {
      var w :| w in rows && KeyOf(w, pk) == KeyOf(s, pk);
      assert w in SameKey(rows, pk, KeyOf(s, pk));
    }
  }

  lemma InSameKey(rows: seq<Row>, cs: seq<Column>, s: Row)
    ensures s in SameKey(rows, cs, KeyOf(s, cs)) <==> s in rows
  {
  }

  /** Upserting the same staged rows a second time changes no table of the chain if and only if no staged
      root row is marked as deleted: a second run brings back those that the first one deleted, and
      deletes those that it brought. */
  lemma UpsertedTwice(db: Database, chain: seq<TableSchema>, rk: Column, c1: Chooser, c2: Chooser)
    requires Ready(db, chain, rk) && UpsertSql(chain).Ok?
    ensures
      var db' := Run(db, UpsertSql(chain).value, c1);
      var db'' := Run(db', UpsertSql(chain).value, c2);
      (forall i :: 0 <= i < |chain| ==> SameRows(Rows(db', Dest(chain[i].name)), Rows(db'', Dest(chain[i].name))))
      <==> forall s :: s in Rows(db, Staging(chain[0].name)) ==> !DeletedIn(chain[0])(s)
  {
    hide Run, UpsertSql, RootResult, TableResult, TableReady, SameRows, DeletedIn, KeysDiffer, Shaped;
    UpsertResult(db, chain, rk, c1);
    var db' := Run(db, UpsertSql(chain).value, c1);
    NoDestIsStaging(chain);
    ReadyAgain(db, db', chain, rk);
    UpsertResult(db', chain, rk, c2);
    var db'' := Run(db', UpsertSql(chain).value, c2);
    RootAgain(db, db', chain[0], Rows(db'', Dest(chain[0].name)));
    forall i | 1 <= i < |chain| ensures SameRows(Rows(db', Dest(chain[i].name)), Rows(db'', Dest(chain[i].name))) {
      NestedAgain(db, db', db'', chain[0], chain[i], rk);
    }
  }
}
