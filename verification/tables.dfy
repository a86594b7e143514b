/**
 * The table pass of the markdown renderer: a header line between pipes, a
 * separator line of one dash cell, and a body running to the first blank line
 * or to a line terminator at the end of a line,
 *   /^\|(.+)\|\n\|-+\|([\s\S]*?)(?:\n\n|\n$)/gm
 * rewritten into an HTML table whose cells are the trimmed pieces between pipes.
 *
 * The script takes the header cells as `headerLine.split('|').slice(1, -1)`,
 * but the captured header line already excludes the outer pipes, so the first
 * and last header cells are lost, while body rows, which still carry their
 * pipes, keep all of theirs. `HeaderCellsAsWritten` is that computation,
 * and `TableAsWritten` is the pass the renderer runs; `HeaderCells` and
 * `Table` keep every cell.
 */
module Tables {
  import opened Options
  import opened JsString
  import opened Rewrite

  /** What the table pattern captures: the header line between its outer
      pipes, the number of dashes in the separator, the body after the
      separator, and the length of the whole match. */
  datatype Shape = Shape(headerLine: string, dashes: nat, body: string, len: nat)

  predicate IsDash(c: char) {
    c == '-'
  }

  /** `(?:\n\n|\n$)` can start at `j`: a LF that ends the input or is followed
      by another line terminator (`$` under the `m` flag). */
  predicate EndsTableAt(t: string, j: nat) {
    j < |t| && t[j] == '\n' && (j + 1 == |t| || IsLineTerminator(t[j + 1]))
  }

  /** The lazy body `[\s\S]*?`: the first place at or after `from` where the table can end. */
  function FindTableEnd(t: string, from: nat): (r: Option<nat>)
    ensures r.Some? ==> from <= r.value < |t| && EndsTableAt(t, r.value)
    ensures r.Some? ==> forall c :: from <= c < r.value ==> !EndsTableAt(t, c)
    ensures r.None? ==> forall c :: from <= c < |t| ==> !EndsTableAt(t, c)
    decreases |t| - from
  {
    if from >= |t| then None
    else if EndsTableAt(t, from) then Some(from)
    else FindTableEnd(t, from + 1)
  }

  /** Where the parts of a table match lie in `t`: the header line runs
      from 1 to the pipe before the LF at `e` (at least one character, no
      line terminator), the separator is a pipe, dashes and the pipe at `p`,
      and the body runs from `p + 1` to the first place `j` where the table
      can end. */
  predicate SpanAt(t: string, e: nat, p: nat, j: nat) {
    && 3 <= e && e + 3 <= p < j < |t|
    && t[0] == '|' && t[e - 1] == '|' && t[e] == '\n' && t[e + 1] == '|' && t[p] == '|'
    && (forall i :: 1 <= i < e ==> !IsLineTerminator(t[i]))
    && (forall i :: e + 2 <= i < p ==> t[i] == '-')
    && FindTableEnd(t, p + 1) == Some(j)
  }

  /** The match takes the LF at `j`, and a second one when it follows. */
  function TableLen(t: string, j: nat): nat {
    if j + 1 < |t| && t[j + 1] == '\n' then j + 2 else j + 1
  }

  /** The three positions of a table match at the front of `t`, if any. */
  function TableSpan(t: string): (r: Option<(nat, nat, nat)>)
    ensures r.Some? ==> SpanAt(t, r.value.0, r.value.1, r.value.2)
  {
    if t == [] || t[0] != '|' then None
    else
      // `(.+)` cannot pass a line terminator, so the header line ends at the first one
      var e := 1 + RunLength(t, 1, NotLineTerminator);
      if !(3 <= e && e + 1 < |t| && t[e] == '\n' && t[e - 1] == '|' && t[e + 1] == '|') then None
      else
        var p := e + 2 + RunLength(t, e + 2, IsDash);
        if !(e + 3 <= p < |t| && t[p] == '|') then None
        else
          match FindTableEnd(t, p + 1)
          case None => None
          case Some(j) => Some((e, p, j))
  }

  /** `sh` is what the table pattern captures from `t`. */
  predicate IsTableAt(t: string, sh: Shape) {
    var e := |sh.headerLine| + 2;
    var p := e + 2 + sh.dashes;
    var j := p + 1 + |sh.body|;
    && SpanAt(t, e, p, j)
    && sh.headerLine == t[1..e - 1] && sh.body == t[p + 1..j] && sh.len == TableLen(t, j)
  }

  /** The match of the table pattern at the front of `t`, if any: when
      there is one, `t` is made of exactly the parts `IsTableAt` lists. */
  function TableShape(lineStart: bool, t: string): (r: Option<Shape>)
    ensures r.Some? ==> lineStart && IsTableAt(t, r.value)
    ensures r.Some? ==> 0 < r.value.len <= |t| && t[r.value.len - 1] == '\n'
  {
    if !lineStart then None
    else
      match TableSpan(t)
      case None => None
      case Some((e, p, j)) => Some(Shape(t[1..e - 1], p - e - 2, t[p + 1..j], TableLen(t, j)))
  }

  /** Conversely, the first place at or after `from` where the table can end
      is the one `FindTableEnd` finds. */
  lemma FindTableEndIs(t: string, from: nat, j: nat)
    requires from <= j && EndsTableAt(t, j)
    requires forall c :: from <= c < j ==> !EndsTableAt(t, c)
    ensures FindTableEnd(t, from) == Some(j)
  {
  }

  /** Conversely, the positions of a table are the ones `TableSpan` finds. */
  lemma TableSpanIs(t: string, e: nat, p: nat, j: nat)
    requires SpanAt(t, e, p, j)
    ensures TableSpan(t) == Some((e, p, j))
  {
    HeaderRunIs(t, e);
    DashRunIs(t, e + 2, p);
  }

  /** The header line's `(.+)` runs up to the first line terminator. */
  lemma HeaderRunIs(t: string, e: nat)
    requires 1 <= e < |t| && IsLineTerminator(t[e])
    requires forall i :: 1 <= i < e ==> !IsLineTerminator(t[i])
    ensures 1 + RunLength(t, 1, NotLineTerminator) == e
  {
    RunLengthIs(t, 1, NotLineTerminator, e - 1);
  }

  /** The separator's `-+` runs up to the first character that is not a dash. */
  lemma DashRunIs(t: string, from: nat, p: nat)
    requires from <= p < |t| && t[p] != '-'
    requires forall i :: from <= i < p ==> t[i] == '-'
    ensures from + RunLength(t, from, IsDash) == p
  {
    RunLengthIs(t, from, IsDash, p - from);
  }

  /** Conversely, text made of those parts is matched as that table. */
  lemma TableShapeIs(t: string, sh: Shape)
    requires IsTableAt(t, sh)
    ensures TableShape(true, t) == Some(sh)
  {
    var e := |sh.headerLine| + 2;
    var p := e + 2 + sh.dashes;
    var j := p + 1 + |sh.body|;
    TableSpanIs(t, e, p, j);
    TableShapeOfSpan(t, e, p, j);
    assert sh.headerLine == t[1..e - 1] && sh.dashes == p - e - 2 && sh.body == t[p + 1..j];
  }

  /** The shape is read off the positions `TableSpan` finds. */
  lemma TableShapeOfSpan(t: string, e: nat, p: nat, j: nat)
    requires TableSpan(t) == Some((e, p, j))
    ensures TableShape(true, t) == Some(Shape(t[1..e - 1], p - e - 2, t[p + 1..j], TableLen(t, j)))
  {
  }

  /** `.slice(1, -1)`: everything but the first and the last element. */
  function Inner<T>(xs: seq<T>): (r: seq<T>)
    ensures |xs| >= 2 ==> |r| == |xs| - 2
    ensures |xs| >= 2 ==> forall k :: 0 <= k < |r| ==> r[k] == xs[k + 1]
    ensures |xs| < 2 ==> r == []
  {
    if |xs| < 2 then [] else xs[1..|xs| - 1]
  }

  /** `.map(c => c.trim())`. */
  function TrimAll(xs: seq<string>): (r: seq<string>)
    ensures |r| == |xs|
    ensures forall k :: 0 <= k < |xs| ==> r[k] == Trim(xs[k])
  {
    seq(|xs|, k requires 0 <= k < |xs| => Trim(xs[k]))
  }

  /** The cells of one body row, which still carries its outer pipes. */
  function RowCells(line: string): seq<string> {
    TrimAll(Inner(Split(line, '|')))
  }

  /** The header cells as the script computes them. */
  function HeaderCellsAsWritten(headerLine: string): seq<string> {
    TrimAll(Inner(Split(headerLine, '|')))
  }

  /** The header cells with the outer pipes already gone: every piece counts. */
  function HeaderCells(headerLine: string): seq<string> {
    TrimAll(Split(headerLine, '|'))
  }

  function CellsHtml(tag: string, cells: seq<string>): string {
    if cells == [] then []
    else "<" + tag + ">" + cells[0] + "</" + tag + ">" + CellsHtml(tag, cells[1..])
  }

  function RowsHtml(lines: seq<string>): string {
    if lines == [] then []
    else "<tr>" + CellsHtml("td", RowCells(lines[0])) + "</tr>" + RowsHtml(lines[1..])
  }

  /** The replacement: the header row, then one row per line of the trimmed body. */
  function TableHtml(headers: seq<string>, body: string): string {
    "<table><thead><tr>" + CellsHtml("th", headers) + "</tr></thead><tbody>"
    + RowsHtml(Split(Trim(body), '\n')) + "</tbody></table>"
  }

  /** The table pattern with the script's header computation. */
  function TableAsWritten(lineStart: bool, t: string): Option<Match> {
    match TableShape(lineStart, t)
    case None => None
    case Some(sh) => Some(Match(sh.len, TableHtml(HeaderCellsAsWritten(sh.headerLine), sh.body)))
  }

  /** The table pattern with every header cell kept. */
  function Table(lineStart: bool, t: string): Option<Match> {
    match TableShape(lineStart, t)
    case None => None
    case Some(sh) => Some(Match(sh.len, TableHtml(HeaderCells(sh.headerLine), sh.body)))
  }

  /** Pieces that are free of pipes, joined by pipes and wrapped in one more
      pipe at each end, as a markdown row is written. */
  function RowLine(cells: seq<string>): string {
    "|" + Join(cells, '|') + "|"
  }

  predicate PipeFree(cells: seq<string>) {
    forall k :: 0 <= k < |cells| ==> '|' !in cells[k]
  }

  /** A body row gets back exactly the cells it was written with. */
  lemma {:induction false} RowCellsOfRow(cells: seq<string>)
    requires |cells| >= 1 && PipeFree(cells)
    ensures RowCells(RowLine(cells)) == TrimAll(cells)
  {
    var x := Join(cells, '|');
    SplitJoin(cells, '|');
    SplitTrailing("|" + x, '|');
    assert RowLine(cells) == ("|" + x) + ['|'];
    assert ("|" + x)[1..] == x;
    assert Split("|" + x, '|') == [[]] + cells;
    assert Split(RowLine(cells), '|') == [[]] + cells + [[]];
    assert Inner([[]] + cells + [[]]) == cells;
  }

  /** As written, a header line loses its first and its last cell: a header
      written like a body row comes out two cells short of that row. */
  lemma {:induction false} AsWrittenHeaderLosesCells(cells: seq<string>)
    requires |cells| >= 2 && PipeFree(cells)
    ensures HeaderCellsAsWritten(Join(cells, '|')) == TrimAll(cells[1..|cells| - 1])
    ensures |HeaderCellsAsWritten(Join(cells, '|'))| == |RowCells(RowLine(cells))| - 2
  {
    SplitJoin(cells, '|');
    RowCellsOfRow(cells);
  }

  /** The smallest case: as written, the header `| a | b |` has no cells at
      all, while a body row written the same way has two (`RowCellsOfRow`). */
  lemma AsWrittenTwoColumnHeaderIsEmpty()
    ensures HeaderCellsAsWritten(" a | b ") == []
  {
    var cells := [" a ", " b "];
    assert Join(cells, '|') == " a | b " by {
      assert cells[1..] == [" b "];
    }
    AsWrittenHeaderLosesCells(cells);
    assert cells[1..|cells| - 1] == [];
  }

  /** With every cell kept, a header line yields the same cells as a body row
      written the same way, so header and rows line up. */
  lemma {:induction false} HeaderMatchesRow(cells: seq<string>)
    requires |cells| >= 1 && PipeFree(cells)
    ensures HeaderCells(Join(cells, '|')) == TrimAll(cells)
    ensures HeaderCells(Join(cells, '|')) == RowCells(RowLine(cells))
  {
    SplitJoin(cells, '|');
    RowCellsOfRow(cells);
  }

  /** A two-column table with one body row, ending in a blank line. */
  const SampleTable: string := "| a | b |\n|-|\n| 1 | 2 |\n\n"

  /** The body row of `SampleTable`. */
  const SampleRow: string := "| 1 | 2 |"

  /** The body of `SampleTable` ends at the LF before the blank line. */
  lemma SampleEnd()
    ensures FindTableEnd(SampleTable, 13) == Some(23)
  {
    var t := SampleTable;
    forall c | 13 <= c < 23
      ensures !EndsTableAt(t, c)
    {
    }
    FindTableEndIs(t, 13, 23);
  }

  /** The positions of the match in `SampleTable`. */
  lemma SampleSpan()
    ensures SpanAt(SampleTable, 9, 12, 23)
  {
    SampleEnd();
    SampleHeaderLine();
    SampleMarks();
  }

  /** The first line of `SampleTable` has no line terminator before position 9. */
  lemma SampleHeaderLine()
    ensures forall i :: 1 <= i < 9 ==> !IsLineTerminator(SampleTable[i])
  {
    var t := SampleTable;
    forall i | 1 <= i < 9
      ensures !IsLineTerminator(t[i])
    {
    }
  }

  /** The pipes, the LF and the dash that delimit the header and separator. */
  lemma SampleMarks()
    ensures var t := SampleTable;
            t[0] == '|' && t[8] == '|' && t[9] == '\n' && t[10] == '|' && t[11] == '-' && t[12] == '|'
  {
  }

  /** The header line `SampleTable` is made of. */
  lemma SampleHeaderPart()
    ensures SampleTable[1..8] == " a | b "
  {
    assert SampleTable == "|" + " a | b " + "|\n|-|\n| 1 | 2 |\n\n";
    Infix("|", " a | b ", "|\n|-|\n| 1 | 2 |\n\n");
  }

  /** The body `SampleTable` is made of. */
  lemma SampleBodyPart()
    ensures SampleTable[13..23] == "\n" + SampleRow
  {
    assert SampleTable == "| a | b |\n|-|" + "\n| 1 | 2 |" + "\n\n";
    Infix("| a | b |\n|-|", "\n| 1 | 2 |", "\n\n");
    assert "\n" + SampleRow == "\n| 1 | 2 |";
  }

  /** The table pattern matches all of `SampleTable`: header ` a | b `, one
      dash, and the body up to the blank line. */
  lemma SampleShape()
    ensures TableShape(true, SampleTable) == Some(Shape(" a | b ", 1, "\n" + SampleRow, |SampleTable|))
  {
    SampleSpan();
    SampleHeaderPart();
    SampleBodyPart();
    assert TableLen(SampleTable, 23) == |SampleTable|;
    TableShapeIs(SampleTable, Shape(" a | b ", 1, "\n" + SampleRow, |SampleTable|));
  }

  /** A row of two pipe-free cells yields those two cells, trimmed. */
  lemma TwoCellRow(x: string, y: string)
    requires '|' !in x && '|' !in y
    ensures RowCells("|" + x + "|" + y + "|") == [Trim(x), Trim(y)]
  {
    var cells := [x, y];
    assert Join(cells, '|') == x + "|" + y by {
      assert cells[1..] == [y];
    }
    assert RowLine(cells) == "|" + x + "|" + y + "|";
    RowCellsOfRow(cells);
  }

  /** Two cells become two elements with the given tag. */
  lemma TwoCells(tag: string, x: string, y: string)
    ensures CellsHtml(tag, [x, y]) == "<" + tag + ">" + x + "</" + tag + ">" + "<" + tag + ">" + y + "</" + tag + ">"
  {
    var a := "<" + tag + ">" + x + "</" + tag + ">";
    var b := "<" + tag + ">" + y + "</" + tag + ">";
    assert [x, y][1..] == [y];
    assert [y][1..] == [];
    assert CellsHtml(tag, [y]) == b + [] == b;
    assert CellsHtml(tag, [x, y]) == a + b;
  }

  /** A body that is one row after a LF becomes one table row. */
  lemma OneRowBody(row: string)
    requires row != [] && !IsWhitespace(row[0]) && !IsWhitespace(row[|row| - 1]) && '\n' !in row
    ensures RowsHtml(Split(Trim("\n" + row), '\n')) == "<tr>" + CellsHtml("td", RowCells(row)) + "</tr>"
  {
    TrimFrame("\n", row, "");
    assert "\n" + row + "" == "\n" + row;
    SplitFree(row, '\n');
    assert [row][1..] == [];
  }

  /** A cell padded with one space on each side trims to the bare cell. */
  lemma TrimPadded(x: string)
    requires |x| == 1 && !IsWhitespace(x[0])
    ensures Trim(" " + x + " ") == x
  {
    TrimFrame(" ", x, " ");
  }

  /** The cells of the body row of `SampleTable` before trimming. */
  lemma SampleRowSplit()
    ensures RowCells(SampleRow) == [Trim(" 1 "), Trim(" 2 ")]
  {
    assert SampleRow == "|" + " 1 " + "|" + " 2 " + "|";
    TwoCellRow(" 1 ", " 2 ");
  }

  /** The header cells of `SampleTable`, every one kept, before trimming. */
  lemma SampleHeaderSplit()
    ensures HeaderCells(" a | b ") == [Trim(" a "), Trim(" b ")]
  {
    assert Join([" a ", " b "], '|') == " a | b " by {
      assert [" a ", " b "][1..] == [" b "];
    }
    HeaderMatchesRow([" a ", " b "]);
  }

  /** The cells of `SampleTable` trimmed. */
  lemma SampleTrims()
    ensures Trim(" 1 ") == "1" && Trim(" 2 ") == "2" && Trim(" a ") == "a" && Trim(" b ") == "b"
  {
    TrimPadded("1");
    TrimPadded("2");
    TrimPadded("a");
    TrimPadded("b");
    assert " " + "1" + " " == " 1 " && " " + "2" + " " == " 2 ";
    assert " " + "a" + " " == " a " && " " + "b" + " " == " b ";
  }

  /** The body row of `SampleTable` has the cells `1` and `2`, and its
      header line, with every cell kept, the cells `a` and `b`. */
  lemma SampleRowCells()
    ensures RowCells(SampleRow) == ["1", "2"]
    ensures HeaderCells(" a | b ") == ["a", "b"]
  {
    SampleRowSplit();
    SampleHeaderSplit();
    SampleTrims();
  }

  /** The body of `SampleTable` becomes one table row holding `1` and `2`. */
  lemma SampleRows()
    ensures RowsHtml(Split(Trim("\n" + SampleRow), '\n')) == "<tr>" + CellsHtml("td", ["1", "2"]) + "</tr>"
  {
    OneRowBody(SampleRow);
    SampleRowCells();
  }

  /** As written, the whole of `SampleTable` is matched and becomes a table
      whose header row has no cell at all. */
  lemma SampleAsWritten()
    ensures TableAsWritten(true, SampleTable) == Some(Match(|SampleTable|, TableHtml([], "\n" + SampleRow)))
  {
    SampleShape();
    AsWrittenTwoColumnHeaderIsEmpty();
  }

  /** With every header cell kept, `SampleTable` gets the header cells `a`
      and `b`, as many as its body row has. */
  lemma SampleCorrected()
    ensures Table(true, SampleTable) == Some(Match(|SampleTable|, TableHtml(["a", "b"], "\n" + SampleRow)))
    ensures |RowCells(SampleRow)| == 2
  {
    SampleShape();
    SampleRowCells();
  }

  /** The table pass as written turns all of `SampleTable` into a table
      with an empty header row. */
  lemma SamplePassAsWritten()
    ensures ReplaceAll(SampleTable, true, TableAsWritten) == TableHtml([], "\n" + SampleRow)
  {
    SampleAsWritten();
    ReplaceAllWhole(SampleTable, true, TableAsWritten, TableHtml([], "\n" + SampleRow));
  }

  /** The corrected table pass turns all of `SampleTable` into a table with
      the header cells `a` and `b`. */
  lemma SamplePassCorrected()
    ensures ReplaceAll(SampleTable, true, Table) == TableHtml(["a", "b"], "\n" + SampleRow)
  {
    SampleCorrected();
    ReplaceAllWhole(SampleTable, true, Table, TableHtml(["a", "b"], "\n" + SampleRow));
  }

  /** A character absent from the body rows and from the fixed markup is
      absent from a table with an empty header row. */
  lemma EmptyHeaderAvoids(c: char, b: string)
    requires c !in RowsHtml(Split(Trim(b), '\n'))
    requires c !in "<table><thead><tr>" && c !in "</tr></thead><tbody>" && c !in "</tbody></table>"
    ensures c !in TableHtml([], b)
  {
    var rows := RowsHtml(Split(Trim(b), '\n'));
    var h := CellsHtml("th", []);
    assert h == [];
    assert TableHtml([], b) == "<table><thead><tr>" + h + "</tr></thead><tbody>" + rows + "</tbody></table>";
  }

  /** A character absent from both cells and from the tags is absent from a
      two-cell body row. */
  lemma TwoCellRowAvoids(c: char, x: string, y: string)
    requires c !in x && c !in y && c !in "<tr><td></td></tr>"
    ensures c !in "<tr>" + CellsHtml("td", [x, y]) + "</tr>"
  {
    TwoCells("td", x, y);
  }

  /** A character absent from `1`, `2` and the tags `td` and `tr` is absent
      from the body of `SampleTable`. */
  lemma SampleRowsAvoid(c: char)
    requires c !in "12<tr><td></td></tr>"
    ensures c !in RowsHtml(Split(Trim("\n" + SampleRow), '\n'))
  {
    SampleRows();
    TwoCellRowAvoids(c, "1", "2");
  }

  /** The same character is absent from the whole table `SampleTable` becomes
      as written. */
  lemma SampleHtmlAvoids(c: char)
    requires c !in "12<tr><td></td></tr>"
    requires c !in "<table><thead><tr>" && c !in "</tr></thead><tbody>" && c !in "</tbody></table>"
    ensures c !in TableHtml([], "\n" + SampleRow)
  {
    SampleRowsAvoid(c);
    EmptyHeaderAvoids(c, "\n" + SampleRow);
  }
}
