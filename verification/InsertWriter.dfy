/**
  Writing items to a file of INSERT VALUES rows, in any number of chunks, and loading that file.
*/
module InsertWriter {
  import opened Options
  import opened Sequences
  import opened InsertSplitter

  const NULL := "NULL"

  /** The literals of an item in the order of the columns; columns it lacks are NULL. */
  function Literals<V>(columns: seq<string>, item: map<string, V>, escape: V -> string): (r: seq<string>)
    ensures |r| == |columns|
  {
    seq(|columns|, i requires 0 <= i < |columns| => if columns[i] in item then escape(item[columns[i]]) else NULL)
  }

  function HeaderLine(columns: seq<string>, escapeIdentifier: string -> string): string {
    "INSERT INTO {}(" + Join(",", seq(|columns|, i requires 0 <= i < |columns| => escapeIdentifier(columns[i])))
      + ")"
  }

  function RowText<V>(columns: seq<string>, item: map<string, V>, escape: V -> string): string {
    "(" + Join(",", Literals(columns, item, escape)) + ")"
  }

  /** `row` is a list in brackets whose k-th part stands for the k-th column: the escaped value of the item,
      or NULL if the item lacks that column. */
  ghost predicate LinesUp<V(!new)>(row: string, columns: seq<string>, item: map<string, V>, escape: V -> string) {
    exists parts: seq<string> ::
      && |parts| == |columns| && row == "(" + Join(",", parts) + ")"
      && forall k :: 0 <= k < |columns| ==>
           parts[k] == if columns[k] in item then escape(item[columns[k]]) else "NULL"
  }

  /** `line` names the columns: its k-th name is the escaped name of the k-th column. */
  ghost predicate NamesColumns(line: string, columns: seq<string>, escapeIdentifier: string -> string) {
    exists names: seq<string> ::
      && |names| == |columns| && line == "INSERT INTO {}(" + Join(",", names) + ")"
      && forall k :: 0 <= k < |columns| ==> names[k] == escapeIdentifier(columns[k])
  }

  lemma RowLinesUp<V(!new)>(columns: seq<string>, item: map<string, V>, escape: V -> string)
    ensures LinesUp(RowText(columns, item, escape), columns, item, escape)
  {
    hide Join;
    var parts := Literals(columns, item, escape);
    assert |parts| == |columns| && RowText(columns, item, escape) == "(" + Join(",", parts) + ")";
  }

  lemma RowTextIs<V>(columns: seq<string>, item: map<string, V>, escape: V -> string)
    ensures RowText(columns, item, escape) == "(" + Join(",", Literals(columns, item, escape)) + ")"
  {
  }

  lemma HeaderNamesColumns(columns: seq<string>, escapeIdentifier: string -> string)
    ensures NamesColumns(HeaderLine(columns, escapeIdentifier), columns, escapeIdentifier)
  {
    hide Join;
    var names := seq(|columns|, i requires 0 <= i < |columns| => escapeIdentifier(columns[i]));
    assert |names| == |columns| && HeaderLine(columns, escapeIdentifier) == "INSERT INTO {}(" + Join(",", names) + ")";
  }

  /** The rows are those of the items, in order. */
  ghost predicate RowsLineUp<V(!new)>(rows: seq<string>, columns: seq<string>, items: seq<map<string, V>>,
                                      escape: V -> string)
  {
    |rows| == |items| && forall n :: 0 <= n < |items| ==> LinesUp(rows[n], columns, items[n], escape)
  }

  lemma TextsLineUp<V(!new)>(columns: seq<string>, items: seq<map<string, V>>, escape: V -> string)
    ensures RowsLineUp(RowTexts(columns, items, escape), columns, items, escape)
  {
    hide RowText, LinesUp;
    forall n | 0 <= n < |items| ensures LinesUp(RowTexts(columns, items, escape)[n], columns, items[n], escape) {
      RowLinesUp(columns, items[n], escape);
    }
  }

  function RowTexts<V>(columns: seq<string>, items: seq<map<string, V>>, escape: V -> string): (r: seq<string>)
    ensures |r| == |items|
  {
    seq(|items|, i requires 0 <= i < |items| => RowText(columns, items[i], escape))
  }

  /** Escaped literals have no newline in them. */
  ghost predicate OneLine<V(!new)>(escape: V -> string) {
    forall v :: '\n' !in escape(v)
  }

  lemma {:induction false} JoinedOneLine(parts: seq<string>)
    requires forall p :: p in parts ==> '\n' !in p
    ensures '\n' !in Join(",", parts)
  {
    if |parts| > 1 {
      JoinedOneLine(parts[1..]);
    }
  }

  lemma RowTextsAreRows<V(!new)>(columns: seq<string>, items: seq<map<string, V>>, escape: V -> string)
    requires OneLine(escape)
    ensures AreRows(RowTexts(columns, items, escape))
  {
    forall r | r in RowTexts(columns, items, escape) ensures IsRow(r) {
      var i :| 0 <= i < |items| && r == RowText(columns, items[i], escape);
      JoinedOneLine(Literals(columns, items[i], escape));
    }
  }

  lemma {:induction false} BodyIsJoined(rows: seq<string>)
    requires rows != []
    ensures Body(rows) == Join(",\n", rows) + ";"
  {
    if |rows| > 1 {
      BodyIsJoined(rows[1..]);
      var x, y := rows[0] + ",\n", Join(",\n", rows[1..]);
      assert x + (y + ";") == x + y + ";";
    }
  }

  lemma NothingJoined()
    ensures Join(",\n", []) == ""
  {
  }

  lemma JoinOneMore(texts: seq<string>, i: nat)
    requires i < |texts|
    ensures Join(",\n", texts[..i + 1]) == Join(",\n", texts[..i]) + (if i > 0 then ",\n" else "") + texts[i]
  {
    assert texts[..i + 1] == texts[..i] + [texts[i]];
    if i > 0 {
      JoinConcat(",\n", texts[..i], [texts[i]]);
    }
  }

  lemma ChunkJoined(started: string, earlier: seq<string>, texts: seq<string>)
    requires texts != []
    ensures started + (MARK + Join(",\n", earlier)) + (if earlier != [] then ",\n" else "") + Join(",\n", texts)
            == started + (MARK + Join(",\n", earlier + texts))
  {
    if earlier != [] {
      JoinConcat(",\n", earlier, texts);
    } else {
      assert earlier + texts == texts;
    }
  }

  /** Of the item all but what is `left` was filled in. */
  ghost predicate Filled<V(!new)>(columns: seq<string>, item: map<string, V>, left: map<string, V>, output: seq<string>,
                                  escape: V -> string)
  {
    && |output| == |columns| && (forall n :: n in left ==> n in item && n in columns && left[n] == item[n])
    && forall i :: 0 <= i < |columns| ==>
         output[i] == if columns[i] in item && columns[i] !in left then escape(item[columns[i]]) else NULL
  }

  lemma NothingFilled<V(!new)>(columns: seq<string>, item: map<string, V>, escape: V -> string)
    requires forall n :: n in item ==> n in columns
    ensures Filled(columns, item, item, seq(|columns|, _ => NULL), escape)
  {
  }

  lemma FilledOnce<V(!new)>(columns: seq<string>, item: map<string, V>, left: map<string, V>, output: seq<string>,
                            escape: V -> string, n: string)
    requires Filled(columns, item, left, output, escape) && n in left
    requires forall i, j :: 0 <= i < j < |columns| ==> columns[i] != columns[j]
    ensures |output| == |columns| && exists i :: 0 <= i < |columns| && columns[i] == n
    ensures forall i :: 0 <= i < |columns| && columns[i] == n ==>
              Filled(columns, item, left - {n}, output[i := escape(left[n])], escape)
  {
    var i :| 0 <= i < |columns| && columns[i] == n;
    forall j | 0 <= j < |columns| && columns[j] == n ensures j == i {
    }
  }

  lemma AllFilled<V(!new)>(columns: seq<string>, item: map<string, V>, output: seq<string>, escape: V -> string)
    requires Filled(columns, item, map[], output, escape)
    ensures output == Literals(columns, item, escape)
  {
  }

  class InsertValuesWriter<V(!new)> {
    const escape: V -> string
    var file: string
    var chunksWritten: nat
    var columns: seq<string>
    ghost var started: string
    ghost var rows: seq<string>

    /** The file is the header line and the rows of all chunks so far, separated and not yet ended. */
    ghost predicate Valid()
      reads this
    {
      && file == started + (MARK + Join(",\n", rows))
      && (chunksWritten > 0 <==> rows != [])
    }

    constructor (columns: seq<string>, escapeIdentifier: string -> string, escape: V -> string)
      ensures Valid() && rows == [] && this.columns == columns && this.escape == escape
      ensures started == HeaderLine(columns, escapeIdentifier) + "\n"
    {
      var header := HeaderLine(columns, escapeIdentifier) + "\n";
      this.columns, this.escape, this.chunksWritten := columns, escape, 0;
      this.file, this.started, this.rows := header + MARK, header, [];
      new;
      assert file == started + (MARK + "");
    }

    /** Fills in the literals of the item's columns, in whatever order it has them. */
    method FormatRow(item: map<string, V>) returns (row: string)
      requires forall n :: n in item ==> n in columns
      requires forall i, j :: 0 <= i < j < |columns| ==> columns[i] != columns[j]
      ensures LinesUp(row, columns, item, escape) && row == RowText(columns, item, escape)
    {
      hide Join, LinesUp, RowText, Literals, Filled;
      var output := seq(|columns|, _ => NULL);
      var left := item;
      NothingFilled(columns, item, escape);
      while left != map[]
        invariant Filled(columns, item, left, output, escape)
        decreases |left|
      {
        var n :| n in left;
        FilledOnce(columns, item, left, output, escape, n);
        var i :| 0 <= i < |columns| && columns[i] == n;
        output := output[i := escape(left[n])];
        left := left - {n};
      }
      AllFilled(columns, item, output, escape);
      row := "(" + Join(",", output) + ")";
      RowTextIs(columns, item, escape);
      RowLinesUp(columns, item, escape);
    }

    method WriteData(items: seq<map<string, V>>)
      requires Valid()
      requires forall item, n :: item in items && n in item ==> n in columns
      requires forall i, j :: 0 <= i < j < |columns| ==> columns[i] != columns[j]
      modifies this`file, this`chunksWritten, this`rows
      ensures Valid() && rows == old(rows) + RowTexts(columns, items, escape)
      ensures old(rows) <= rows && RowsLineUp(rows[|old(rows)|..], columns, items, escape)
    {
      hide Join, RowText, LinesUp, RowsLineUp;
      TextsLineUp(columns, items, escape);
      ghost var start := |rows|;
      // empty chunks are not written
      if items == [] {
        assert rows == rows + RowTexts(columns, items, escape);
        assert rows[start..] == RowTexts(columns, items, escape);
        return;
      }
      ghost var earlier := rows;
      if chunksWritten > 0 {
        file := file + ",\n";
      }
      ghost var before := file;
      ghost var texts := RowTexts(columns, items, escape);
      NothingJoined();
      assert before + "" == before;
      var i := 0;
      while i < |items|
        invariant 0 <= i <= |items|
        invariant file == before + (Join(",\n", texts[..i]) + if 0 < i < |items| then ",\n" else "")
        modifies this`file
      {
        var row := FormatRow(items[i]);
        file := file + row;
        JoinOneMore(texts, i);
        if i < |items| - 1 {
          file := file + ",\n";
        }
        i := i + 1;
      }
      assert texts[..|items|] == texts && Join(",\n", texts) + "" == Join(",\n", texts);
      rows := rows + texts;
      assert rows[start..] == texts;
      ChunkJoined(started, earlier, texts);
      chunksWritten := chunksWritten + 1;
    }

    method WriteFooter()
      requires Valid()
      modifies this`file
      ensures file == started + (MARK + Body(rows))
    {
      if chunksWritten > 0 {
        BodyIsJoined(rows);
        file := file + ";";
        var x, y, z := started, MARK, Join(",\n", rows);
        assert x + (y + z) + ";" == x + (y + (z + ";"));
      }
    }
  }

  function AllRows<V>(columns: seq<string>, chunks: seq<seq<map<string, V>>>, escape: V -> string): seq<string> {
    if chunks == [] then []
    else AllRows(columns, chunks[..|chunks| - 1], escape) + RowTexts(columns, chunks[|chunks| - 1], escape)
  }

  lemma {:induction false} AllRowsAreRows<V(!new)>(columns: seq<string>, chunks: seq<seq<map<string, V>>>,
                                                   escape: V -> string)
    requires OneLine(escape)
    ensures AreRows(AllRows(columns, chunks, escape))
  {
    if chunks != [] {
      AllRowsAreRows(columns, chunks[..|chunks| - 1], escape);
      RowTextsAreRows(columns, chunks[|chunks| - 1], escape);
    }
  }

  lemma {:induction false} AllRowsLineUp<V(!new)>(columns: seq<string>, chunks: seq<seq<map<string, V>>>,
                                                  escape: V -> string)
    ensures RowsLineUp(AllRows(columns, chunks, escape), columns, Concat(chunks), escape)
  {
    hide Concat, LinesUp;
    if chunks == [] {
      ConcatOne<map<string, V>>([]);
    } else {
      ConcatLast(chunks);
      AllRowsLineUp(columns, chunks[..|chunks| - 1], escape);
      TextsLineUp(columns, chunks[|chunks| - 1], escape);
    }
  }

  /** From items to statements: written in any chunks and split at any read size, every item is
      inserted exactly once, in order, as the row whose k-th part is its value for the k-th name in the
      header. */
  method WriteAndInsert<V(!new)>(columns: seq<string>, chunks: seq<seq<map<string, V>>>,
                                 escapeIdentifier: string -> string, escape: V -> string,
                                 formatted: string -> string, maxQueryLength: nat, maxRows: Option<nat>)
    returns (batches: seq<seq<string>>, ghost rows: seq<string>, ghost header: string)
    requires forall chunk, item, n :: chunk in chunks && item in chunk && n in item ==> n in columns
    requires forall i, j :: 0 <= i < j < |columns| ==> columns[i] != columns[j]
    requires OneLine(escape) && OneLine(escapeIdentifier)
    requires maxQueryLength >= 2 && (maxRows.Some? ==> maxRows.value >= 2)
    ensures RowsLineUp(rows, columns, Concat(chunks), escape) && NamesColumns(header, columns, escapeIdentifier)
    ensures
      var k := maxQueryLength / 2;
      AreBatches(batches, formatted(header + "\n"), Packs(rows, k), maxRows, k, rows) && Concat(Packs(rows, k)) == rows
  {
    hide AreBatches, AreRows, RowsLineUp, NamesColumns;
    var w := new InsertValuesWriter<V>(columns, escapeIdentifier, escape);
    ghost var names := seq(|columns|, i requires 0 <= i < |columns| => escapeIdentifier(columns[i]));
    JoinedOneLine(names);
    header := HeaderLine(columns, escapeIdentifier);
    HeaderNamesColumns(columns, escapeIdentifier);
    rows := AllRows(columns, chunks, escape);
    AllRowsLineUp(columns, chunks, escape);
    var i := 0;
    while i < |chunks|
      invariant 0 <= i <= |chunks| && fresh(w) && w.Valid() && w.columns == columns && w.escape == escape
      invariant w.rows == AllRows(columns, chunks[..i], escape) && w.started == header + "\n"
    {
      w.WriteData(chunks[i]);
      assert chunks[..i + 1][..i] == chunks[..i];
      i := i + 1;
    }
    assert chunks[..i] == chunks;
    w.WriteFooter();
    AllRowsAreRows(columns, chunks, escape);
    batches := Insert(w.file, formatted, maxQueryLength, maxRows, header, w.rows);
    LosslessExactly(w.rows, maxQueryLength / 2);
  }
}
