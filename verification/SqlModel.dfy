/**
  A small relational language: just the statements that the merge jobs emit, and what running
  them does. Comparison is two-valued; keys and hashes are taken to be non-null.
*/
module SqlModel {
  import opened Options

  datatype Value = Null | Flag(b: bool) | Num(n: int) | Text(s: string)

  type Column = string

  type Row = map<Column, Value>

  /** A table of the destination dataset, its counterpart in the staging dataset, or a temporary
      table, whose generated name collides with no other. */
  datatype Table = Dest(name: string) | Staging(name: string) | Temp(name: string, op: string)

  /** Rows in storage order; SQL gives that order no meaning, so results are stated on multisets or
      membership wherever order could matter. */
  type Database = map<Table, seq<Row>>

  datatype SortOrder = Asc | Desc

  datatype Sort = Sort(column: Column, order: SortOrder)

  /** A column, or the concatenation of several, where `render` is the text that the database makes of
      a value. */
  datatype Expr = Col(column: Column) | Concat(columns: seq<Column>, render: Value -> string)

  datatype Cond =
    | Always
    | IsNull(e: Expr)
    | Equals(e: Expr, v: Value)
    | Or(left: Cond, right: Cond)
    | And(left: Cond, right: Cond)
    | Not(c: Cond)
    | In(e: Expr, sub: Subquery)

  /** SELECT e FROM t WHERE c */
  datatype Subquery = Subquery(e: Expr, from: Table, cond: Cond)

  /** A clause equates columns of both sides; clauses are alternatives. */
  type KeyClause = seq<Column>

  datatype Query =
    | SelectRows(columns: seq<Column>, from: Table, cond: Cond)
    | SelectDedup(columns: seq<Column>, from: Table, partition: seq<Column>, sort: Option<Sort>, cond: Cond)
    | SelectMatched(column: Column, target: Table, source: Table, clauses: seq<KeyClause>)

  datatype Statement =
    | DeleteMatched(target: Table, source: Table, clauses: seq<KeyClause>)
    | CreateTemp(temp: Table, query: Query)
    | Delete(table: Table, cond: Cond)
    | Insert(table: Table, columns: seq<Column>, query: Query)
    | InsertStamped(table: Table, columns: seq<Column>, stamps: seq<(Column, Value)>, from: Table, cond: Cond)
    | Merge(table: Table, source: Table, on: KeyClause, deleted: Option<Cond>, columns: seq<Column>)
    | Update(table: Table, column: Column, v: Value, cond: Cond)

  // ---------------------------------------------------------------------------------------
  // Expressions and conditions

  function Get(r: Row, c: Column): Value {
    if c in r then r[c] else Null
  }

  function Rows(db: Database, t: Table): seq<Row> {
    if t in db then db[t] else []
  }

  function Rendered(v: Value, render: Value -> string): string {
    if v == Null then "" else render(v)
  }

  /** Concatenation of values as text; NULL contributes nothing. */
  function Joined(r: Row, cs: seq<Column>, render: Value -> string): string {
    if cs == [] then "" else Rendered(Get(r, cs[0]), render) + Joined(r, cs[1..], render)
  }

  function Eval(e: Expr, r: Row): Value {
    match e
    case Col(c) => Get(r, c)
    case Concat(cs, render) => Text(Joined(r, cs, render))
  }

  /** Whether a condition holds of a row; nothing equals NULL, which has a test of its own. */
  ghost predicate Holds(db: Database, c: Cond, r: Row)
    decreases c
  {
    match c
    case Always => true
    case IsNull(e) => Eval(e, r) == Null
    case Equals(e, v) => v != Null && Eval(e, r) == v
    case Or(p, q) => Holds(db, p, r) || Holds(db, q, r)
    case And(p, q) => Holds(db, p, r) && Holds(db, q, r)
    case Not(p) => !Holds(db, p, r)
    case In(e, sub) => exists s :: s in Rows(db, sub.from) && Holds(db, sub.cond, s) && Eval(sub.e, s) == Eval(e, r)
  }

  predicate KeyMatch(d: Row, s: Row, clause: KeyClause) {
    forall c :: c in clause ==> Get(d, c) == Get(s, c)
  }

  ghost predicate Matches(d: Row, s: Row, clauses: seq<KeyClause>) {
    exists clause :: clause in clauses && KeyMatch(d, s, clause)
  }

  ghost predicate MatchedBy(d: Row, rows: seq<Row>, clauses: seq<KeyClause>) {
    exists s :: s in rows && Matches(d, s, clauses)
  }

  // ---------------------------------------------------------------------------------------
  // Rows

  ghost function Filter<T(!new)>(s: seq<T>, keep: T -> bool): (r: seq<T>)
    ensures forall x :: x in r <==> x in s && keep(x)
  {
    if s == [] then []
    else (if keep(s[0]) then [s[0]] else []) + Filter(s[1..], keep)
  }

  function Map<T, U>(s: seq<T>, f: T -> U): (r: seq<U>)
    ensures |r| == |s| && forall i :: 0 <= i < |s| ==> r[i] == f(s[i])
  {
    if s == [] then [] else [f(s[0])] + Map(s[1..], f)
  }

  function Project(r: Row, cs: seq<Column>): Row {
    map c | c in cs :: Get(r, c)
  }

  /** The database's choice among rows that its ORDER BY does not separate. */
  type Chooser = seq<Row> -> nat

  /** Whether `r` comes strictly before `s` in the given order. Rows without a number to sort by are
      not separated from any other, as databases differ in where they put them. */
  predicate Before(sort: Option<Sort>, r: Row, s: Row) {
    match sort
    case None => false
    case Some(Sort(c, order)) =>
      Get(r, c).Num? && Get(s, c).Num?
      && if order == Desc then Get(r, c).n > Get(s, c).n else Get(r, c).n < Get(s, c).n
  }

  ghost predicate Unbeaten(sort: Option<Sort>, rows: seq<Row>, r: Row) {
    forall s :: s in rows ==> !Before(sort, s, r)
  }

  function KeyOf(r: Row, cs: seq<Column>): seq<Value> {
    Map(cs, (c: Column) => Get(r, c))
  }

  function HasKey(cs: seq<Column>, key: seq<Value>): Row -> bool {
    (r: Row) => KeyOf(r, cs) == key
  }

  function LacksKey(cs: seq<Column>, key: seq<Value>): Row -> bool {
    (r: Row) => KeyOf(r, cs) != key
  }

  /** The row that gets ROW_NUMBER 1 among `rows`. */
  ghost function Winner(rows: seq<Row>, sort: Option<Sort>, choose: Chooser): (w: Row)
    requires rows != []
    ensures w in rows && Unbeaten(sort, rows, w)
  {
    var first := Filter(rows, (r: Row) => Unbeaten(sort, rows, r));
    SomeUnbeaten(rows, sort);
    first[choose(first) % |first|]
  }

  lemma {:induction false} SomeUnbeaten(rows: seq<Row>, sort: Option<Sort>)
    requires rows != []
    ensures exists r :: r in rows && Unbeaten(sort, rows, r)
  {
    if |rows| == 1 {
      assert rows[0] in rows && Unbeaten(sort, rows, rows[0]);
    } else {
      SomeUnbeaten(rows[1..], sort);
      var r :| r in rows[1..] && Unbeaten(sort, rows[1..], r);
      if Before(sort, rows[0], r) {
        assert Unbeaten(sort, rows, rows[0]) by {
          forall s | s in rows ensures !Before(sort, s, rows[0]) {
            if s != rows[0] {
              assert s in rows[1..];
            }
          }
        }
      } else {
        assert Unbeaten(sort, rows, r);
      }
    }
  }

  /** The rows with ROW_NUMBER 1 in their partition, one per key. */
  ghost function Dedup(rows: seq<Row>, partition: seq<Column>, sort: Option<Sort>, choose: Chooser): seq<Row>
    decreases |rows|
  {
    if rows == [] then []
    else
      var k := KeyOf(rows[0], partition);
      var same, others := Filter(rows, HasKey(partition, k)), Filter(rows, LacksKey(partition, k));
      FilterShrinks(rows, LacksKey(partition, k), 0);
      assert rows[0] in same;
      [Winner(same, sort, choose)] + Dedup(others, partition, sort, choose)
  }

  lemma {:induction false} FilterShrinks<T(!new)>(s: seq<T>, keep: T -> bool, i: nat)
    requires i < |s| && !keep(s[i])
    ensures |Filter(s, keep)| < |s|
  {
    FilterNoLonger(s[1..], keep);
    if i > 0 {
      FilterShrinks(s[1..], keep, i - 1);
    }
  }

  lemma {:induction false} FilterNoLonger<T(!new)>(s: seq<T>, keep: T -> bool)
    ensures |Filter(s, keep)| <= |s|
  {
    if s != [] {
      FilterNoLonger(s[1..], keep);
    }
  }

  // ---------------------------------------------------------------------------------------
  // Queries and statements

  ghost function Selected(db: Database, q: Query, choose: Chooser): seq<Row> {
    match q
    case SelectRows(cs, from, c) =>
      Map(Filter(Rows(db, from), (r: Row) => Holds(db, c, r)), (r: Row) => Project(r, cs))
    case SelectDedup(cs, from, partition, sort, c) =>
      Map(Filter(Dedup(Rows(db, from), partition, sort, choose), (r: Row) => Holds(db, c, r)),
          (r: Row) => Project(r, cs))
    case SelectMatched(c, target, source, clauses) =>
      Map(Filter(Rows(db, target), (r: Row) => MatchedBy(r, Rows(db, source), clauses)), (r: Row) => Project(r, [c]))
  }

  function Stamped(r: Row, columns: seq<Column>, stamps: seq<(Column, Value)>): Row
    decreases stamps
  {
    if stamps == [] then Project(r, columns)
    else Stamped(r, columns, stamps[..|stamps| - 1])[stamps[|stamps| - 1].0 := stamps[|stamps| - 1].1]
  }

  /** A staged row that matches `d` on the key, if any. */
  ghost function MergeSource(d: Row, source: seq<Row>, on: KeyClause): (r: Option<Row>)
    ensures r.Some? ==> r.value in source && KeyMatch(d, r.value, on)
    ensures r.None? ==> forall s :: s in source ==> !KeyMatch(d, s, on)
  {
    if exists s :: s in source && KeyMatch(d, s, on)
    then var s :| s in source && KeyMatch(d, s, on); Some(s)
    else None
  }

  /** What MERGE does to the rows that were there: unmatched rows stay, matched ones are deleted or
      get the source's values in all given columns. */
  ghost function Merged(db: Database, rows: seq<Row>, source: seq<Row>, on: KeyClause, deleted: Option<Cond>,
                        columns: seq<Column>): seq<Row>
  {
    if rows == [] then []
    else
      var rest := Merged(db, rows[1..], source, on, deleted, columns);
      match MergeSource(rows[0], source, on)
      case None => [rows[0]] + rest
      case Some(s) =>
        if deleted.Some? && Holds(db, deleted.value, s) then rest
        else [rows[0] + Project(s, columns)] + rest
  }

  /** Whether a source row matches none of `rows`. */
  ghost function NewTo(rows: seq<Row>, on: KeyClause): Row -> bool {
    (s: Row) => forall d :: d in rows ==> !KeyMatch(d, s, on)
  }

  ghost function Exec(db: Database, stmt: Statement, choose: Chooser): Database {
    match stmt
    case DeleteMatched(t, source, clauses) =>
      db[t := Filter(Rows(db, t), (r: Row) => !MatchedBy(r, Rows(db, source), clauses))]
    case CreateTemp(t, q) =>
      db[t := Selected(db, q, choose)]
    case Delete(t, c) =>
      db[t := Filter(Rows(db, t), (r: Row) => !Holds(db, c, r))]
    case Insert(t, _, q) =>
      db[t := Rows(db, t) + Selected(db, q, choose)]
    case InsertStamped(t, cs, stamps, from, c) =>
      db[t := Rows(db, t) + Map(Filter(Rows(db, from), (r: Row) => Holds(db, c, r)),
                                (r: Row) => Stamped(r, cs, stamps))]
    case Merge(t, source, on, deleted, cs) =>
      db[t := Merged(db, Rows(db, t), Rows(db, source), on, deleted, cs)
              + Map(Filter(Rows(db, source), NewTo(Rows(db, t), on)),
                    (s: Row) => Project(s, cs))]
    case Update(t, column, v, c) =>
      db[t := Map(Rows(db, t), (r: Row) => if Holds(db, c, r) then r[column := v] else r)]
  }

  ghost function Run(db: Database, stmts: seq<Statement>, choose: Chooser): Database
    decreases stmts
  {
    if stmts == [] then db else Run(Exec(db, stmts[0], choose), stmts[1..], choose)
  }

  lemma {:induction false} RunConcat(db: Database, a: seq<Statement>, b: seq<Statement>, choose: Chooser)
    ensures Run(db, a + b, choose) == Run(Run(db, a, choose), b, choose)
    decreases a
  {
    if a == [] {
      assert a + b == b;
    } else {
      assert (a + b)[1..] == a[1..] + b;
      RunConcat(Exec(db, a[0], choose), a[1..], b, choose);
    }
  }

  lemma RunAppend(db: Database, a: seq<Statement>, s: Statement, choose: Chooser)
    ensures Run(db, a + [s], choose) == Exec(Run(db, a, choose), s, choose)
  {
    RunConcat(db, a, [s], choose);
    assert Run(Run(db, a, choose), [s], choose) == Run(Exec(Run(db, a, choose), s, choose), [s][1..], choose);
  }
}
