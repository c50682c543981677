/**
  Splitting a file of INSERT VALUES rows into statements: the file is cut at whatever character a
  fixed read size ends on, and every statement must still be whole.
*/
module InsertSplitter {
  import opened Options
  import opened Sequences

  const MARK := "VALUES\n"

  // ---------------------------------------------------------------------------------------
  // Text

  /** The length of the first line, with its newline if it has one. */
  function LineEnd(s: string): (n: nat)
    ensures n <= |s| && (s != "" ==> n > 0)
  {
    if s == "" then 0 else if s[0] == '\n' then 1 else 1 + LineEnd(s[1..])
  }

  function FirstLine(s: string): string {
    s[..LineEnd(s)]
  }

  /** The lines of a text, with their newlines. */
  function SplitLines(s: string): seq<string> {
    if s == "" then [] else [FirstLine(s)] + SplitLines(s[LineEnd(s)..])
  }

  function StripLeft(s: string, chars: set<char>): string {
    if s != "" && s[0] in chars then StripLeft(s[1..], chars) else s
  }

  function StripRight(s: string, chars: set<char>): string {
    if s != "" && s[|s| - 1] in chars then StripRight(s[..|s| - 1], chars) else s
  }

  function Strip(s: string, chars: set<char>): string {
    StripRight(StripLeft(s, chars), chars)
  }

  const SPACES := {' ', '\t', '\n', '\r', '\U{0B}', '\U{0C}'}

  /** All but the last character, the separator "," of a line. */
  function Unseparated(s: string): string {
    if s == "" then "" else s[..|s| - 1]
  }

  function Min(a: nat, b: nat): nat {
    if a < b then a else b
  }

  class TextReader {
    const text: string
    var pos: nat

    ghost predicate Valid()
      reads this
    {
      pos <= |text|
    }

    ghost function Rest(): string
      reads this
      requires Valid()
    {
      text[pos..]
    }

    constructor (text: string)
      ensures Valid() && Rest() == text
    {
      this.text, pos := text, 0;
    }

    method Read(n: nat) returns (s: string)
      requires Valid()
      modifies this
      ensures Valid()
      ensures s == old(Rest())[..Min(n, |old(Rest())|)] && Rest() == old(Rest())[Min(n, |old(Rest())|)..]
    {
      var end := Min(pos + n, |text|);
      s := text[pos..end];
      pos := end;
    }

    method ReadLine() returns (s: string)
      requires Valid()
      modifies this
      ensures Valid()
      ensures s == FirstLine(old(Rest())) && Rest() == old(Rest())[LineEnd(old(Rest()))..]
    {
      var end := pos + LineEnd(text[pos..]);
      s := text[pos..end];
      pos := end;
    }
  }

  // ---------------------------------------------------------------------------------------
  // Files and statements

  /** A row as the writer formats it. */
  predicate IsRow(r: string) {
    |r| >= 2 && r[0] == '(' && r[|r| - 1] == ')' && '\n' !in r
  }

  predicate AreRows(rows: seq<string>) {
    forall r :: r in rows ==> IsRow(r)
  }

  /** The rows of a file: one a line, separated by commas, with a semicolon at the end. */
  function Body(rows: seq<string>): string {
    if rows == [] then ""
    else if |rows| == 1 then rows[0] + ";"
    else rows[0] + ",\n" + Body(rows[1..])
  }

  /** `s` is the rows in order, separated by commas and ended by a semicolon, with or without
      newlines after those. */
  predicate Renders(s: string, rows: seq<string>)
    decreases rows
  {
    && rows != [] && |s| > |rows[0]| && s[..|rows[0]|] == rows[0]
    && var rest := s[|rows[0]|..];
       if |rows| == 1 then rest == ";" || rest == ";\n"
       else
         && rest[0] == ','
         && (Renders(rest[1..], rows[1..]) || (|rest| > 1 && rest[1] == '\n' && Renders(rest[2..], rows[1..])))
  }

  /** One INSERT statement per group of rows: the header, the mark, and the rows, in a text no longer
      than `bound`. */
  predicate Inserts(fragments: seq<string>, header: string, groups: seq<seq<string>>, bound: int)
    decreases groups
  {
    if groups == [] then fragments == []
    else
      && |fragments| >= 3 && fragments[0] == header && fragments[1] == MARK
      && Renders(fragments[2], groups[0]) && |fragments[2]| <= bound
      && Inserts(fragments[3..], header, groups[1..], bound)
  }

  /** Without a limit on rows there is one statement; otherwise all but the last have one row less
      than the limit, and the last has at least one and at most as many as the limit. */
  predicate Sized(groups: seq<seq<string>>, maxRows: Option<nat>) {
    && groups != []
    && (maxRows.None? ==> |groups| == 1)
    && (maxRows.Some? ==>
          && (forall i :: 0 <= i < |groups| - 1 ==> |groups[i]| == maxRows.value - 1)
          && 1 <= |groups[|groups| - 1]| <= maxRows.value)
  }

  ghost predicate Carries(fragments: seq<string>, header: string, rows: seq<string>, maxRows: Option<nat>, bound: int) {
    exists groups :: Inserts(fragments, header, groups, bound) && Sized(groups, maxRows) && Concat(groups) == rows
  }

  // ---------------------------------------------------------------------------------------
  // Which rows go together

  /** The least number of rows whose lines are at least two characters longer than `k`, or all. */
  function Taken(rows: seq<string>, k: int): (c: nat)
    ensures c <= |rows| && (rows != [] ==> c > 0)
  {
    if |rows| <= 1 then |rows|
    else if |rows[0]| >= k then 1
    else 1 + Taken(rows[1..], k - |rows[0]| - 2)
  }

  function Packs(rows: seq<string>, k: nat): seq<seq<string>> {
    if rows == [] || k == 0 then []
    else [rows[..Taken(rows, k)]] + Packs(rows[Taken(rows, k)..], k)
  }

  /** The rows of all statements are those of the file, in order, for every read size, save that
      with a read size of nothing all rows are lost. */
  lemma {:induction false} LosslessExactly(rows: seq<string>, k: nat)
    ensures Concat(Packs(rows, k)) == rows <==> k > 0 || rows == []
  {
    if rows != [] && k > 0 {
      LosslessExactly(rows[Taken(rows, k)..], k);
    }
  }

  // ---------------------------------------------------------------------------------------
  // Where a cut falls

  /** What the two reads after a cut give: the rest of the line, or the next line if only the newline
      of this one is left. */
  function Until(rest: string): string {
    if FirstLine(rest) == "\n" then FirstLine(rest[1..]) else FirstLine(rest)
  }

  function Used(rest: string): (n: nat)
    ensures n <= |rest|
  {
    if FirstLine(rest) == "\n" then 1 + LineEnd(rest[1..]) else LineEnd(rest)
  }

  predicate AtEnd(u: string) {
    u == "" || u[|u| - 1] == ';'
  }

  function Closed(u: string): string {
    if AtEnd(u) then u else Unseparated(u) + ";"
  }

  /** `lines` are the lines of `rows`, but for the last one, which `u` completes, to one row or two. */
  predicate Complete(lines: seq<string>, u: string, rows: seq<string>)
    decreases lines
  {
    && lines != [] && rows != []
    && if |lines| == 1 then |rows| <= 2 && Renders(lines[0] + u, rows)
       else lines[0] == rows[0] + ",\n" && Complete(lines[1..], u, rows[1..])
  }

  lemma {:induction false} LineEndAt(a: string, b: string)
    requires '\n' !in a
    ensures LineEnd(a + "\n" + b) == |a| + 1 && FirstLine(a + "\n" + b) == a + "\n" && (a + "\n" + b)[|a| + 1..] == b
    ensures LineEnd(a) == |a| && FirstLine(a) == a
  {
    if a != "" {
      assert (a + "\n" + b)[1..] == a[1..] + "\n" + b;
      LineEndAt(a[1..], b);
    } else {
      assert a + "\n" + b == "\n" + b;
    }
  }

  lemma StripLine(a: string, nl: string)
    requires a != "" && '\n' !in a && (nl == "" || nl == "\n")
    ensures Strip(a + nl, {'\n'}) == a
  {
    assert StripLeft(a + nl, {'\n'}) == a + nl;
    assert StripRight(a, {'\n'}) == a;
    if nl == "\n" {
      assert (a + nl)[..|a + nl| - 1] == a;
    }
  }

  /** What is known after the reads at a cut: which rows are complete, and that the reader is at the
      start of the next one. */
  ghost predicate CutAt(rows: seq<string>, c: nat, content: string, rest: string) {
    && 0 < c <= |rows|
    && rest[Used(rest)..] == Body(rows[c..])
    && var u := Strip(Until(rest), {'\n'});
       && (AtEnd(u) <==> c == |rows|)
       && Complete(SplitLines(content), Closed(u), rows[..c])
       && exists r :: r in rows && |Closed(u)| <= |r| + 1
  }

  lemma SplitOne(s: string)
    requires s != "" && '\n' !in s
    ensures SplitLines(s) == [s]
  {
    LineEndAt(s, "");
    assert s[|s|..] == "";
  }

  lemma SplitLine(a: string, b: string)
    requires '\n' !in a
    ensures SplitLines(a + "\n" + b) == [a + "\n"] + SplitLines(b)
  {
    LineEndAt(a, b);
  }

  lemma RendersOne(a: string, r: string)
    requires a == r + ";" || a == r + ";\n"
    ensures Renders(a, [r])
  {
    assert a[..|r|] == r;
  }

  lemma RendersTwo(a: string, nl: string, r: string, q: string)
    requires nl == "" || nl == "\n"
    requires a == r + "," + nl + q + ";" && q != "" && q[0] != '\n'
    ensures Renders(a, [r, q])
  {
    assert a[..|r|] == r && a[|r|..] == "," + nl + q + ";" && [r, q][1..] == [q];
    RendersOne(q + ";", q);
    assert a[|r|..][1 + |nl|..] == q + ";";
  }

  lemma CompleteOne(line: string, u: string, rows: seq<string>)
    requires 1 <= |rows| <= 2 && Renders(line + u, rows)
    ensures Complete([line], u, rows)
  {
    hide Renders;
  }

  /** The cut falls within the first row, or right behind it. */
  lemma CutInRow(rows: seq<string>, k: nat, content: string, rest: string)
    requires rows != [] && 0 < k <= |rows[0]| && IsRow(rows[0])
    requires content + rest == Body(rows) && |content| == k
    ensures CutAt(rows, 1, content, rest)
  {
    hide AtEnd, Closed, Strip, LineEnd, SplitLines, Renders, Complete, IsRow;
    var r := rows[0];
    var b, sep, nl := r[k..], if |rows| == 1 then ";" else ",", if |rows| == 1 then "" else "\n";
    assert '\n' !in r by { OpenRow(r); }
    BodyStarts(rows);
    assert content == r[..k] && rest == b + sep + nl + Body(rows[1..]) by {
      assert content + rest == r[..k] + (b + sep + nl + Body(rows[1..]));
      assert (content + rest)[..k] == content && (r[..k] + (b + sep + nl + Body(rows[1..])))[..k] == r[..k];
      assert (content + rest)[k..] == rest && (r[..k] + (b + sep + nl + Body(rows[1..])))[k..] == b + sep + nl
        + Body(rows[1..]);
    }
    SplitOne(content);
    assert content + (b + ";") == r + ";";
    RendersOne(content + (b + ";"), r);
    CompleteOne(content, b + ";", [r]);
    assert rows[..1] == [r];
    LineFirst(b + sep, nl, Body(rows[1..]));
    StripLine(b + sep, nl);
    CloseLine(b, sep);
    assert b + sep + nl != "\n";
  }

  lemma OpenRow(r: string)
    requires IsRow(r)
    ensures '\n' !in r && r != ""
  {
  }

  lemma BodyStarts(rows: seq<string>)
    requires rows != []
    ensures Body(rows) == rows[0] + (if |rows| == 1 then ";" else ",") + (if |rows| == 1 then "" else "\n")
            + Body(rows[1..])
  {
    if |rows| == 1 {
      assert rows[1..] == [] && rows[0] + ";" + "" + "" == rows[0] + ";";
    } else {
      assert rows[0] + "," + "\n" == rows[0] + ",\n";
    }
  }

  lemma LineFirst(a: string, nl: string, b: string)
    requires '\n' !in a && (nl == "\n" || (nl == "" && b == ""))
    ensures FirstLine(a + nl + b) == a + nl && (a + nl + b)[LineEnd(a + nl + b)..] == b
  {
    LineEndAt(a, b);
    if nl == "" {
      assert a + nl + b == a;
    }
  }

  lemma CloseLine(b: string, sep: string)
    requires sep == "," || sep == ";"
    ensures (AtEnd(b + sep) <==> sep == ";") && Closed(b + sep) == b + ";"
  {
  }

  /** Both reads together give the next line, whether or not a newline is in the way. */
  lemma UntilIs(rest: string, skip: string, a: string, nl: string, b: string)
    requires a != "" && '\n' !in a && (nl == "\n" || (nl == "" && b == ""))
    requires (skip == "" || skip == "\n") && rest == skip + (a + nl + b)
    ensures Until(rest) == a + nl && rest[Used(rest)..] == b
  {
    hide LineEnd;
    LineFirst(a, nl, b);
    if skip == "\n" {
      LineFirst("", "\n", a + nl + b);
      assert rest == "" + "\n" + (a + nl + b) && "" + "\n" == "\n";
      assert rest[1..] == a + nl + b;
      assert rest[1 + LineEnd(rest[1..])..] == rest[1..][LineEnd(rest[1..])..];
    } else {
      assert rest == a + nl + b && (a + nl)[0] == a[0] != '\n';
    }
  }

  lemma SplitShort(a: string, nl: string)
    requires a != "" && '\n' !in a && (nl == "" || nl == "\n")
    ensures SplitLines(a + nl) == [a + nl]
  {
    hide SplitLines;
    if nl == "" {
      SplitOne(a);
      assert a + nl == a;
    } else {
      SplitLine(a, "");
      SplitNone();
      assert a + "\n" + "" == a + nl;
    }
  }

  /** The cut falls on either side of the newline behind the first row: the second one is read too. */
  lemma CutAtNewline(rows: seq<string>, nl: string, content: string, rest: string)
    requires |rows| > 1 && IsRow(rows[0]) && IsRow(rows[1]) && (nl == "" || nl == "\n")
    requires content == rows[0] + "," + nl && content + rest == Body(rows)
    ensures CutAt(rows, 2, content, rest)
  {
    hide AtEnd, Closed, Strip, LineEnd, SplitLines, Renders, Complete, IsRow, Body, FirstLine, Until, Used;
    var r, q, left, tail := rows[0], rows[1], if nl == "" then "\n" else "", rows[1..];
    OpenRow(r);
    OpenRow(q);
    BodyStarts(rows);
    BodyStarts(tail);
    var sep, end := if |tail| == 1 then ";" else ",", if |tail| == 1 then "" else "\n";
    assert rest == left + Body(tail) by {
      assert content + rest == content + (left + Body(tail));
      assert (content + rest)[|content|..] == rest && (content + (left + Body(tail)))[|content|..] == left + Body(tail);
    }
    assert |tail| == 1 ==> Body(tail[1..]) == "" by { BodyEmpty(tail[1..]); }
    assert q + sep != "" && '\n' !in q + sep;
    UntilIs(rest, left, q + sep, end, Body(tail[1..]));
    SplitShort(r + ",", nl);
    StripLine(q + sep, end);
    CloseLine(q, sep);
    assert rows[..2] == [r, q] && tail[1..] == rows[2..];
    RowsRendered(r, nl, q, content);
    CompleteOne(content, q + ";", [r, q]);
    assert q in rows;
  }

  lemma RowsRendered(r: string, nl: string, q: string, content: string)
    requires (nl == "" || nl == "\n") && content == r + "," + nl && IsRow(q)
    ensures Renders(content + (q + ";"), [r, q])
  {
    hide Renders;
    assert content + (q + ";") == r + "," + nl + q + ";";
    RendersTwo(content + (q + ";"), nl, r, q);
  }

  lemma BodyEmpty(rows: seq<string>)
    ensures rows == [] ==> Body(rows) == ""
  {
  }

  lemma SplitNone()
    ensures SplitLines("") == []
  {
  }

  lemma OpenRows(rows: seq<string>)
    requires AreRows(rows)
    ensures forall r :: r in rows ==> IsRow(r)
  {
  }

  lemma CloseRows(rows: seq<string>)
    requires forall r :: r in rows ==> IsRow(r)
    ensures AreRows(rows)
  {
  }

  /** However the cut falls, whole rows come out. */
  lemma {:induction false} Cut(rows: seq<string>, k: nat, content: string, rest: string)
    requires rows != [] && k > 0 && AreRows(rows)
    requires content + rest == Body(rows) && |content| == Min(k, |Body(rows)|)
    ensures CutAt(rows, Taken(rows, k), content, rest)
    decreases rows
  {
    hide AtEnd, CutAt, AreRows;
    var r := rows[0];
    assert IsRow(r) by { OpenRows(rows); }
    if k <= |r| {
      CutInRow(rows, k, content, rest);
    } else if |rows| == 1 {
      assert content == r + ";" && rest == "";
      CutAtEnd(rows);
    } else if k <= |r| + 2 {
      var nl := if k == |r| + 1 then "" else "\n";
      assert content == r + "," + nl by {
        assert Body(rows)[..k] == content && Body(rows)[..k] == (r + ",\n")[..k];
      }
      assert IsRow(rows[1]) by { OpenRows(rows); }
      CutAtNewline(rows, nl, content, rest);
    } else {
      assert AreRows(rows[1..]) by { OpenRows(rows); CloseRows(rows[1..]); }
      var n := |r| + 2;
      var inner := content[n..];
      assert content == r + "," + "\n" + inner by {
        assert content[..n] == Body(rows)[..n] == r + ",\n";
      }
      assert inner + rest == Body(rows[1..]) by {
        assert (content + rest)[n..] == inner + rest && Body(rows)[n..] == Body(rows[1..]);
      }
      Cut(rows[1..], k - n, inner, rest);
      CutLater(rows, Taken(rows[1..], k - n), content, inner, rest);
    }
  }

  lemma CutAtEnd(rows: seq<string>)
    requires |rows| == 1 && AreRows(rows)
    ensures CutAt(rows, 1, rows[0] + ";", "")
  {
    var r := rows[0];
    assert r in rows && rows[..1] == [r] && rows[1..] == [];
    SplitOne(r + ";");
    assert (r + ";") + "" == r + ";";
    RendersOne(r + ";", r);
  }

  lemma CutLater(rows: seq<string>, c: nat, content: string, inner: string, rest: string)
    requires |rows| > 1 && AreRows(rows) && CutAt(rows[1..], c, inner, rest)
    requires content == rows[0] + "," + "\n" + inner
    ensures CutAt(rows, c + 1, content, rest)
  {
    hide AtEnd;
    var u := Closed(Strip(Until(rest), {'\n'}));
    assert IsRow(rows[0]);
    SplitLine(rows[0] + ",", inner);
    assert rows[1..][c..] == rows[c + 1..];
    assert rows[..c + 1][1..] == rows[1..][..c];
    assert SplitLines(content) == [rows[0] + ",\n"] + SplitLines(inner) by {
      assert rows[0] + "," + "\n" == rows[0] + ",\n";
    }
    assert ([rows[0] + ",\n"] + SplitLines(inner))[1..] == SplitLines(inner);
    var r :| r in rows[1..] && |u| <= |r| + 1;
    assert r in rows;
  }

  // ---------------------------------------------------------------------------------------
  // Statements from lines

  lemma {:induction false} LinesJoin(s: string)
    ensures Concat(SplitLines(s)) == s
  {
    if s != "" {
      LinesJoin(s[LineEnd(s)..]);
    }
  }

  /** The lines of rows that others follow. */
  function Lines(rows: seq<string>): string {
    if rows == [] then "" else rows[0] + "," + "\n" + Lines(rows[1..])
  }

  /** A pack is the shortest run of rows whose lines are at least two characters longer than the read
      size, or all rows that are left. */
  lemma {:induction false} TakenIsLeast(rows: seq<string>, k: nat, n: nat)
    requires k > 0 && 0 < n <= |rows|
    ensures n < Taken(rows, k) ==> |Lines(rows[..n])| < k + 2
    ensures n == Taken(rows, k) < |rows| ==> |Lines(rows[..n])| >= k + 2
    decreases n
  {
    assert rows[..n][0] == rows[0] && rows[..n][1..] == rows[1..n] == rows[1..][..n - 1];
    assert |Lines(rows[..n])| == |rows[0]| + 2 + |Lines(rows[1..][..n - 1])|;
    if n == 1 {
      assert rows[1..][..0] == [];
    } else if k > |rows[0]| + 2 {
      TakenIsLeast(rows[1..], k - |rows[0]| - 2, n - 1);
    } else {
      assert Taken(rows[1..], k - |rows[0]| - 2) == 1;
    }
  }

  lemma LinesStep(rows: seq<string>)
    requires rows != []
    ensures Lines(rows) == rows[0] + ",\n" + Lines(rows[1..]) && Lines([]) == ""
  {
    assert rows[0] + "," + "\n" == rows[0] + ",\n";
  }

  lemma {:induction false} LinesRender(rows: seq<string>)
    requires rows != [] && AreRows(rows)
    ensures |Lines(rows)| > 2 && Renders(Lines(rows)[..|Lines(rows)| - 2] + ";\n", rows)
    ensures Lines(rows)[0] == '(' && Lines(rows)[|Lines(rows)| - 2..] == ",\n"
  {
    hide Renders, AreRows, IsRow, Lines;
    LinesStep(rows);
    var r := rows[0];
    assert r != "" && r[0] == '(' by { OpenRows(rows); RowStarts(r); }
    if |rows| == 1 {
      assert rows[1..] == [] && r + ",\n" + "" == r + ",\n";
      RendersOne(r + ";\n", r);
      assert rows == [r] && Lines(rows)[..|Lines(rows)| - 2] == r;
    } else {
      var tail := rows[1..];
      assert AreRows(tail) by { OpenRows(rows); CloseRows(tail); }
      LinesRender(tail);
      var more := Lines(tail);
      assert Lines(rows) == r + ",\n" + more;
      RendersMore(r, more[..|more| - 2] + ";\n", rows);
      CutTwo(r + ",\n", more);
    }
  }

  lemma RowStarts(r: string)
    requires IsRow(r)
    ensures r != "" && r[0] == '('
  {
  }

  lemma CutTwo(a: string, b: string)
    requires |b| > 2
    ensures (a + b)[..|a + b| - 2] + ";\n" == a + (b[..|b| - 2] + ";\n")
    ensures (a + b)[|a + b| - 2..] == b[|b| - 2..]
  {
  }

  lemma RendersMore(r: string, inner: string, rows: seq<string>)
    requires |rows| > 1 && r == rows[0] && Renders(inner, rows[1..])
    ensures Renders(r + ",\n" + inner, rows)
  {
    var s := r + ",\n" + inner;
    assert s[..|r|] == r && s[|r|..] == ",\n" + inner;
    assert s[|r|..][2..] == inner;
  }

  /** Lines that are not the last of a cut end in a separator; with a semicolon instead they are whole. */
  lemma LinesClosed(rows: seq<string>)
    requires rows != [] && AreRows(rows)
    ensures Renders(Unseparated(Strip(Lines(rows), SPACES)) + ";\n", rows)
    ensures |Unseparated(Strip(Lines(rows), SPACES)) + ";\n"| <= |Lines(rows)|
  {
    hide Renders, Lines;
    LinesRender(rows);
    var s := Lines(rows);
    var t := s[..|s| - 1];
    assert s[|s| - 1] == s[|s| - 2..][1] == '\n' && s[|s| - 2] == s[|s| - 2..][0] == ',';
    assert StripLeft(s, SPACES) == s;
    assert t[|t| - 1] == ',';
    assert StripRight(t, SPACES) == t;
    assert StripRight(s, SPACES) == t;
    assert t[..|t| - 1] == s[..|s| - 2];
  }

  lemma {:induction false} CompleteFront(lines: seq<string>, u: string, rows: seq<string>, n: nat)
    requires Complete(lines, u, rows) && n < |lines|
    ensures n < |rows| && Concat(lines[..n]) == Lines(rows[..n]) && Complete(lines[n..], u, rows[n..])
    decreases n
  {
    hide Renders;
    if n == 0 {
      assert lines[n..] == lines && rows[n..] == rows;
    } else {
      CompleteFront(lines[1..], u, rows[1..], n - 1);
      assert lines[..n][1..] == lines[1..][..n - 1] && rows[..n][1..] == rows[1..][..n - 1];
      assert lines[1..][n - 1..] == lines[n..] && rows[1..][n - 1..] == rows[n..];
      assert rows[0] + "," + "\n" == rows[0] + ",\n";
    }
  }

  lemma {:induction false} CompleteRenders(lines: seq<string>, u: string, rows: seq<string>)
    requires Complete(lines, u, rows)
    ensures Renders(Concat(lines) + u, rows) && 0 < |lines| <= |rows| <= |lines| + 1
    decreases lines
  {
    hide Renders;
    if |lines| == 1 {
      ConcatOne(lines[0]);
      assert lines == [lines[0]];
    } else {
      CompleteRenders(lines[1..], u, rows[1..]);
      RendersMore(rows[0], Concat(lines[1..]) + u, rows);
      assert Concat(lines) + u == rows[0] + ",\n" + (Concat(lines[1..]) + u);
    }
  }

  /** The statements for lines of which the last is completed by `until`: one for every `n` lines. */
  function ForLines(lines: seq<string>, until: string, header: string, n: nat): seq<string>
    requires n > 0
  {
    if |lines| <= n then [header, MARK, Concat(lines) + until]
    else
      [header, MARK, Unseparated(Strip(Concat(lines[..n]), SPACES)) + ";\n"] + ForLines(lines[n..], until, header, n)
  }

  lemma {:induction false} ForLinesCarries(lines: seq<string>, until: string, header: string, maxRows: Option<nat>,
                                           rows: seq<string>, bound: int)
    requires maxRows.Some? && maxRows.value >= 2
    requires Complete(lines, until, rows) && AreRows(rows) && |Concat(lines)| + |until| <= bound
    ensures Carries(ForLines(lines, until, header, maxRows.value - 1), header, rows, maxRows, bound)
    decreases lines
  {
    hide Complete, Renders, AreRows, Strip, Unseparated, Inserts, Sized, Concat, Lines, Carries;
    var n := maxRows.value - 1;
    if |lines| <= n {
      CompleteRenders(lines, until, rows);
      CarriesLast(header, Concat(lines) + until, maxRows, rows, bound);
    } else {
      var values := Unseparated(Strip(Concat(lines[..n]), SPACES)) + ";\n";
      var more := ForLines(lines[n..], until, header, n);
      CompleteFront(lines, until, rows, n);
      assert AreRows(rows[..n]) && AreRows(rows[n..]) by { OpenRows(rows); CloseRows(rows[..n]); CloseRows(rows[n..]); }
      LinesClosed(rows[..n]);
      ConcatParts(lines[..n], lines[n..]);
      assert lines[..n] + lines[n..] == lines && rows[..n] + rows[n..] == rows;
      ForLinesCarries(lines[n..], until, header, maxRows, rows[n..], bound);
      CarriesFirst(header, values, rows[..n], more, maxRows, rows[n..], bound);
    }
  }

  lemma CarriesLast(header: string, values: string, maxRows: Option<nat>, rows: seq<string>, bound: int)
    requires Renders(values, rows) && |values| <= bound && rows != []
    requires maxRows.Some? ==> |rows| <= maxRows.value
    ensures Carries([header, MARK, values], header, rows, maxRows, bound)
  {
    hide Renders;
    assert Concat([rows]) == rows + Concat([]) == rows;
    assert Inserts([], header, [], bound);
    assert Inserts([header, MARK, values], header, [rows], bound) && Sized([rows], maxRows);
  }

  lemma CarriesFirst(header: string, values: string, group: seq<string>, more: seq<string>, maxRows: Option<nat>,
                     rest: seq<string>,
                     bound: int)
    requires maxRows.Some? && |group| == maxRows.value - 1 && Renders(values, group) && |values| <= bound
    requires Carries(more, header, rest, maxRows, bound)
    ensures Carries([header, MARK, values] + more, header, group + rest, maxRows, bound)
  {
    hide Renders;
    var groups :| Inserts(more, header, groups, bound) && Sized(groups, maxRows) && Concat(groups) == rest;
    assert ([group] + groups)[1..] == groups && ([header, MARK, values] + more)[3..] == more;
    SizedFirst(group, groups, maxRows);
    assert Inserts([header, MARK, values] + more, header, [group] + groups, bound);
  }

  lemma SizedFirst(group: seq<string>, groups: seq<seq<string>>, maxRows: Option<nat>)
    requires maxRows.Some? && |group| == maxRows.value - 1 && Sized(groups, maxRows)
    ensures Sized([group] + groups, maxRows)
  {
  }

  lemma ForLinesStep(lines: seq<string>, from: nat, until: string, header: string, n: nat)
    requires n > 0 && from < |lines|
    ensures
      var to := Min(from + n, |lines|);
      ForLines(lines[from..], until, header, n)
      == if to == |lines| then [header, MARK, Concat(lines[from..to]) + until]
         else
           [header, MARK, Unseparated(Strip(Concat(lines[from..to]), SPACES)) + ";\n"]
           + ForLines(lines[to..], until, header, n)
  {
    hide Concat, Strip, Unseparated;
    var to := Min(from + n, |lines|);
    assert lines[from..][..to - from] == lines[from..to] && lines[from..][to - from..] == lines[to..];
    if to == |lines| {
      assert lines[from..to] == lines[from..];
    }
  }

  /** The statements for one read: one, or one for every `maxRows - 1` lines, the last of which gets
      the row that was read on top. */
  method Statements(content: string, until: string, header: string, maxRows: Option<nat>, ghost rows: seq<string>)
    returns (sql: seq<string>)
    requires maxRows.Some? ==> maxRows.value >= 2
    requires content != "" && Complete(SplitLines(content), until, rows) && AreRows(rows)
    ensures Carries(sql, header, rows, maxRows, |content| + |until|)
  {
    hide Complete, Renders, Inserts, AreRows, Strip, Sized, Unseparated, Concat, Carries, ForLines;
    var lines := SplitLines(content);
    LinesJoin(content);
    if maxRows.None? {
      CompleteRenders(lines, until, rows);
      CarriesLast(header, content + until, maxRows, rows, |content| + |until|);
      return [header, MARK, content + until];
    }
    sql := [];
    var n := maxRows.value - 1;
    var processed := 0;
    ghost var all := ForLines(lines, until, header, n);
    assert lines[0..] == lines;
    while processed < |lines|
      invariant processed <= |lines|
      invariant all == sql + if processed < |lines| then ForLines(lines[processed..], until, header, n) else []
    {
      ForLinesStep(lines, processed, until, header, n);
      var chunk := lines[processed..Min(processed + n, |lines|)];
      processed := processed + |chunk|;
      if processed == |lines| {
        // the row beyond the lines ends the last statement
        sql := sql + [header, MARK, Concat(chunk) + until];
      } else {
        // no row follows in this statement
        sql := sql + [header, MARK, Unseparated(Strip(Concat(chunk), SPACES)) + ";\n"];
      }
    }
    assert sql == all;
    ForLinesCarries(lines, until, header, maxRows, rows, |content| + |until|);
  }

  // ---------------------------------------------------------------------------------------
  // The whole file

  /** The batch of statements for the rows that one read brings, in texts no longer than half the
      maximal query length and the longest of `longest` and its separator. */
  ghost predicate IsBatch(batch: seq<string>, header: string, rows: seq<string>, maxRows: Option<nat>, k: nat,
                          all: seq<string>) {
    exists r :: r in all && Carries(batch, header, rows, maxRows, k + |r| + 1)
  }

  ghost predicate AreBatches(batches: seq<seq<string>>, header: string, packs: seq<seq<string>>, maxRows: Option<nat>,
                             k: nat, all: seq<string>) {
    |batches| == |packs| && forall i :: 0 <= i < |packs| ==> IsBatch(batches[i], header, packs[i], maxRows, k, all)
  }

  lemma BatchAdded(batches: seq<seq<string>>, header: string, packs: seq<seq<string>>, maxRows: Option<nat>, k: nat,
                   all: seq<string>,
                   batch: seq<string>, rows: seq<string>, r: string, bound: int)
    requires AreBatches(batches, header, packs, maxRows, k, all)
    requires Carries(batch, header, rows, maxRows, bound) && r in all && bound <= k + |r| + 1
    ensures batch != [] && AreBatches(batches + [batch], header, packs + [rows], maxRows, k, all)
  {
    hide Carries;
    CarriesLonger(batch, header, rows, maxRows, bound, k + |r| + 1);
    assert IsBatch(batch, header, rows, maxRows, k, all);
  }

  lemma CarriesLonger(batch: seq<string>, header: string, rows: seq<string>, maxRows: Option<nat>, bound: int,
                      more: int)
    requires Carries(batch, header, rows, maxRows, bound) && bound <= more
    ensures batch != [] && Carries(batch, header, rows, maxRows, more)
  {
    hide Sized, Renders;
    var groups :| Inserts(batch, header, groups, bound) && Sized(groups, maxRows) && Concat(groups) == rows;
    InsertsLonger(batch, header, groups, bound, more);
    SizedNonempty(groups, maxRows);
  }

  lemma SizedNonempty(groups: seq<seq<string>>, maxRows: Option<nat>)
    requires Sized(groups, maxRows)
    ensures groups != []
  {
  }

  lemma {:induction false} InsertsLonger(fragments: seq<string>, header: string, groups: seq<seq<string>>, bound: int,
                                         more: int)
    requires Inserts(fragments, header, groups, bound) && bound <= more
    ensures Inserts(fragments, header, groups, more)
    decreases groups
  {
    hide Renders;
    if groups != [] {
      InsertsLonger(fragments[3..], header, groups[1..], bound, more);
    }
  }

  lemma OpenCut(rows: seq<string>, c: nat, content: string, rest: string)
    requires CutAt(rows, c, content, rest)
    ensures
      var u := Strip(Until(rest), {'\n'});
      && 0 < c <= |rows| && rest[Used(rest)..] == Body(rows[c..])
      && (AtEnd(u) <==> c == |rows|)
      && Complete(SplitLines(content), Closed(u), rows[..c])
      && exists r :: r in rows && |Closed(u)| <= |r| + 1
  {
  }

  /** `content` was read from where `rows` start. */
  predicate IsRead(content: string, rest: string, rows: seq<string>, k: nat) {
    content + rest == Body(rows) && |content| == Min(k, |Body(rows)|)
  }

  lemma ReadIs(text: string, rows: seq<string>, k: nat)
    requires text == Body(rows)
    ensures IsRead(text[..Min(k, |text|)], text[Min(k, |text|)..], rows, k)
  {
  }

  lemma ReadCut(rows: seq<string>, k: nat, content: string, rest: string)
    requires IsRead(content, rest, rows, k) && content != "" && AreRows(rows)
    ensures rows != [] && k > 0 && CutAt(rows, Taken(rows, k), content, rest)
  {
    hide CutAt;
    BodyNonempty(rows);
    Cut(rows, k, content, rest);
  }

  /** Completes what was read, which ends at any character, and makes statements of it. */
  method ReadBatch(f: TextReader, content: string, header: string, maxRows: Option<nat>, ghost rows: seq<string>,
                   ghost k: nat)
    returns (sql: seq<string>, isEof: bool)
    requires f.Valid() && content != "" && AreRows(rows) && IsRead(content, f.Rest(), rows, k)
    requires maxRows.Some? ==> maxRows.value >= 2
    modifies f
    ensures f.Valid() && f.Rest() == Body(rows[Taken(rows, k)..])
    ensures isEof <==> Taken(rows, k) == |rows|
    ensures exists r :: r in rows && Carries(sql, header, rows[..Taken(rows, k)], maxRows, |content| + |r| + 1)
  {
    hide AtEnd, Closed, Complete, Strip, SplitLines, Until, Used, Body, Taken, AreRows, Carries, FirstLine, LineEnd,
         IsRead, CutAt;
    ghost var rest, c := f.Rest(), Taken(rows, k);
    ReadCut(rows, k, content, rest);
    OpenCut(rows, c, content, rest);
    UntilRead(rest);
    var until := f.ReadLine();
    if until == "\n" {
      until := f.ReadLine();
    }
    until := Strip(until, {'\n'});
    isEof := AtEnd(until);
    // the separator becomes a semicolon
    until := Closed(until);
    assert AreRows(rows[..c]) by { OpenRows(rows); CloseRows(rows[..c]); }
    sql := Statements(content, until, header, maxRows, rows[..c]);
    ghost var r :| r in rows && |until| <= |r| + 1;
    CarriesLonger(sql, header, rows[..c], maxRows, |content| + |until|, |content| + |r| + 1);
  }

  /** Every read but the last gives a batch; each batch carries its pack of rows in whole statements. */
  method Insert(text: string, formatted: string -> string, maxQueryLength: nat, maxRows: Option<nat>,
                ghost headerLine: string, ghost rows: seq<string>)
    returns (batches: seq<seq<string>>)
    requires '\n' !in headerLine && AreRows(rows) && text == headerLine + "\n" + (MARK + Body(rows))
    requires maxRows.Some? ==> maxRows.value >= 2
    ensures AreBatches(batches, formatted(headerLine + "\n"), Packs(rows, maxQueryLength / 2), maxRows,
                       maxQueryLength / 2, rows)
  {
    hide *;
    var f := new TextReader(text);
    HeaderLines(headerLine, Body(rows));
    var header := f.ReadLine();
    header := formatted(header);
    var valuesMark := f.ReadLine();
    assert valuesMark == MARK;

    batches := [];
    var k := maxQueryLength / 2;
    var insertSql: seq<string> := [];
    ghost var left := rows;
    ghost var packs: seq<seq<string>> := [];
    assert [] + Packs(rows, k) == Packs(rows, k);
    NoBatches(header, maxRows, k, rows);
    ReadIs(f.Rest(), left, k);
    var content := f.Read(k);
    while content != ""
      invariant f.Valid() && fresh(f)
      invariant IsRead(content, f.Rest(), left, k) && (forall r :: r in left ==> r in rows)
      invariant if insertSql == [] then AreBatches(batches, header, packs, maxRows, k, rows)
                else left == [] && AreBatches(batches + [insertSql], header, packs, maxRows, k, rows)
      invariant Packs(rows, k) == packs + Packs(left, k)
      decreases |left|
    {
      ReadSome(content, f.Rest(), left, k);
      assert AreRows(left) by { OpenRows(rows); CloseRows(left); }
      ghost var c := Taken(left, k);
      var sql, isEof := ReadBatch(f, content, header, maxRows, left, k);
      ghost var r :| r in left && Carries(sql, header, left[..c], maxRows, |content| + |r| + 1);
      BatchAdded(batches, header, packs, maxRows, k, rows, sql, left[..c], r, |content| + |r| + 1);
      insertSql := insertSql + sql;
      assert insertSql == sql;
      packs := packs + [left[..c]];
      left := left[c..];
      if !isEof {
        batches := batches + [insertSql];
        insertSql := [];
      }
      ReadIs(f.Rest(), left, k);
      content := f.Read(k);
    }
    if insertSql != [] {
      batches := batches + [insertSql];
    }
    NoMorePacks(content, f.Rest(), left, k);
    assert packs + [] == packs;
  }

  lemma ReadSome(content: string, rest: string, rows: seq<string>, k: nat)
    requires IsRead(content, rest, rows, k) && content != ""
    ensures rows != [] && |content| <= k && 0 < Taken(rows, k) <= |rows|
    ensures Packs(rows, k) == [rows[..Taken(rows, k)]] + Packs(rows[Taken(rows, k)..], k)
  {
  }

  lemma NoMorePacks(content: string, rest: string, rows: seq<string>, k: nat)
    requires IsRead(content, rest, rows, k) && content == ""
    ensures Packs(rows, k) == []
  {
    BodyNonempty(rows);
  }

  lemma NoBatches(header: string, maxRows: Option<nat>, k: nat, rows: seq<string>)
    ensures AreBatches([], header, [], maxRows, k, rows)
  {
  }

  lemma BodyNonempty(rows: seq<string>)
    ensures Body(rows) == "" <==> rows == []
  {
  }

  lemma UntilRead(rest: string)
    ensures FirstLine(rest) == "\n" ==>
              LineEnd(rest) == 1 && Until(rest) == FirstLine(rest[1..])
                && rest[Used(rest)..] == rest[1..][LineEnd(rest[1..])..]
    ensures FirstLine(rest) != "\n" ==> Until(rest) == FirstLine(rest) && rest[Used(rest)..] == rest[LineEnd(rest)..]
  {
  }

  lemma HeaderLines(headerLine: string, body: string)
    requires '\n' !in headerLine
    ensures
      var text := headerLine + "\n" + (MARK + body);
      && FirstLine(text) == headerLine + "\n" && text[LineEnd(text)..] == MARK + body
      && FirstLine(MARK + body) == MARK && (MARK + body)[LineEnd(MARK + body)..] == body
  {
    LineEndAt(headerLine, MARK + body);
    assert MARK + body == "VALUES" + "\n" + body;
    LineEndAt("VALUES", body);
  }
}
