/** The selection printer: tables and code blocks written as Markdown, and what the saved-document reader makes of them.
    */
module DocumentPrinter {
  import opened Options
  import opened TextLines
  import opened DocumentReader

  // ---- Table cells ----

  /** Each run of line breaks becomes one space. */
  function Collapse(s: string): string {
    if s == [] then []
    else if s[|s| - 1] != '\n' then Collapse(s[..|s| - 1]) + [s[|s| - 1]]
    else if |s| > 1 && s[|s| - 2] == '\n' then Collapse(s[..|s| - 1])
    else Collapse(s[..|s| - 1]) + " "
  }

  function EscapePipes(s: string): string {
    if s == [] then []
    else EscapePipes(s[..|s| - 1]) + if s[|s| - 1] == '|' then "\\|" else [s[|s| - 1]]
  }

  function Printed(cell: string): string { EscapePipes(Collapse(Trim(cell))) }

  ghost predicate NoBarePipe(s: string) {
    forall i :: 0 <= i < |s| && s[i] == '|' ==> i > 0 && s[i - 1] == '\\'
  }

  /** A cell that can stand between pipes on one line. */
  ghost predicate Clean(s: string) { Trimmed(s) && '\n' !in s && NoBarePipe(s) }

  lemma {:induction false} CollapseKeepsEnds(s: string)
    requires s != [] && !IsSpace(s[0])
    ensures Collapse(s) != [] && Collapse(s)[0] == s[0] && '\n' !in Collapse(s)
    ensures !IsSpace(s[|s| - 1]) ==> Collapse(s)[|Collapse(s)| - 1] == s[|s| - 1]
  {
    if |s| == 1 {
      assert Collapse(s[..0]) == [];
    } else {
      CollapseKeepsEnds(s[..|s| - 1]);
    }
  }

  lemma {:induction false} EscapeKeepsEnds(s: string)
    requires '\n' !in s && (s == [] || !IsSpace(s[0]))
    ensures '\n' !in EscapePipes(s) && NoBarePipe(EscapePipes(s))
    ensures s != [] ==> EscapePipes(s) != [] && !IsSpace(EscapePipes(s)[0])
    ensures s != [] && !IsSpace(s[|s| - 1]) ==> !IsSpace(EscapePipes(s)[|EscapePipes(s)| - 1])
  {
    if s != [] {
      EscapeKeepsEnds(s[..|s| - 1]);
    }
  }

  lemma PrintedIsClean(cell: string)
    ensures Clean(Printed(cell))
  {
    TrimTrims(cell);
    var t := Trim(cell);
    if t != [] {
      CollapseKeepsEnds(t);
    }
    EscapeKeepsEnds(Collapse(t));
  }

  // ---- What a printed cell says ----

  /** Each pipe with the one character before it taken out. */
  function Unpiped(s: string): string
    decreases |s|
  {
    if s == [] then []
    else if s[|s| - 1] != '|' then Unpiped(s[..|s| - 1]) + [s[|s| - 1]]
    else Unpiped(if |s| == 1 then [] else s[..|s| - 2]) + "|"
  }

  function NotEmpty(lines: seq<string>): seq<string> {
    if lines == [] then []
    else
      var before, last := NotEmpty(lines[..|lines| - 1]), lines[|lines| - 1];
      if last == "" then before else before + [last]
  }

  lemma {:induction false} UnpipeEscaped(s: string)
    ensures Unpiped(EscapePipes(s)) == s
  {
    if s != [] {
      var init, c := s[..|s| - 1], s[|s| - 1];
      UnpipeEscaped(init);
      var escaped := EscapePipes(s);
      assert s == init + [c];
      if c == '|' {
        assert escaped[..|escaped| - 2] == EscapePipes(init);
      } else {
        assert escaped[..|escaped| - 1] == EscapePipes(init);
      }
    }
  }

  lemma NotEmptyAppend(lines: seq<string>, line: string)
    ensures NotEmpty(lines + [line]) == if line == "" then NotEmpty(lines) else NotEmpty(lines) + [line]
  {
    assert (lines + [line])[..|lines|] == lines;
  }

  lemma JoinAppend(lines: seq<string>, line: string)
    ensures Join(lines + [line], " ") == if lines == [] then line else Join(lines, " ") + " " + line
  {
    assert (lines + [line])[..|lines|] == lines;
  }

  /** Up to a line break at its end, collapsing is joining the lines that are not empty. */
  lemma {:induction false} CollapseJoins(s: string)
    requires s != [] && s[0] != '\n'
    ensures NotEmpty(Lines(s)) != []
    ensures Collapse(s) == Join(NotEmpty(Lines(s)), " ") + if s[|s| - 1] == '\n' then " " else ""
    ensures Lines(s)[|Lines(s)| - 1] == "" <==> s[|s| - 1] == '\n'
  {
    hide NotEmpty, Join, Collapse, Lines, WithChar;
    var init, c := s[..|s| - 1], s[|s| - 1];
    CollapseStep(s);
    LinesStep(s);
    if init == [] {
      assert s == [c];
      LineOf(s);
      NotEmptyAppend([], [c]);
      NothingLeftOver();
      JoinAppend([], [c]);
      assert [] + [[c]] == [[c]];
    } else {
      CollapseJoins(init);
      var lines := Lines(init);
      var before, last := lines[..|lines| - 1], lines[|lines| - 1];
      assert lines == before + [last];
      NotEmptyAppend(before, last);
      if c == '\n' {
        NotEmptyAppend(lines, "");
      } else {
        NotEmptyAppend(before, last + [c]);
        JoinAppend(NotEmpty(before), last + [c]);
        JoinAppend(NotEmpty(before), last);
      }
    }
  }

  lemma CollapseStep(s: string)
    requires s != []
    ensures var before, c := Collapse(s[..|s| - 1]), s[|s| - 1];
      Collapse(s) == before + if c != '\n' then [c] else if |s| > 1 && s[|s| - 2] == '\n' then [] else " "
    ensures |s| == 1 ==> Collapse(s[..|s| - 1]) == []
  {}

  lemma LinesStep(s: string)
    requires s != []
    ensures var before, c := Lines(s[..|s| - 1]), s[|s| - 1];
      Lines(s) == if c == '\n' then before + [[]] else before[..|before| - 1] + [before[|before| - 1] + [c]]
  {}

  lemma NothingLeftOver()
    ensures NotEmpty([]) == []
  {}

  /** What a printed cell says is the trimmed text with its empty lines left out and one space for each break: nothing
      else is added, lost or moved. */
  lemma PrintedSays(cell: string)
    ensures Unpiped(Printed(cell)) == Join(NotEmpty(Lines(Trim(cell))), " ")
  {
    var t := Trim(cell);
    TrimTrims(cell);
    UnpipeEscaped(Collapse(t));
    if t == [] {
      assert Lines(t) == [""];
      NotEmptyAppend([], "");
      assert [] + [""] == [""];
    } else {
      assert IsSpace('\n');
      hide Collapse, Lines, NotEmpty, Join;
      CollapseJoins(t);
    }
  }

  /** A table's cells stand where its rows have them, short rows filled up at the end. */
  lemma PaddedAt(rows: seq<seq<string>>, i: nat, j: nat)
    requires i < |rows| && j < Width(rows)
    ensures var cells := PaddedRows(rows, Width(rows));
      |cells| == |rows| && |cells[i]| == Width(rows)
      && cells[i][j] == if j < |rows[i]| then Printed(rows[i][j]) else ""
  {
    hide Printed, Width;
    assert rows[i] in rows;
  }

  // ---- Table rows ----

  function PrintedRow(row: seq<string>): (r: seq<string>)
    ensures |r| == |row| && forall i :: 0 <= i < |r| ==> r[i] == Printed(row[i])
  {
    if row == [] then [] else PrintedRow(row[..|row| - 1]) + [Printed(row[|row| - 1])]
  }

  function Copies(cell: string, n: nat): (r: seq<string>)
    ensures |r| == n && forall i :: 0 <= i < n ==> r[i] == cell
  {
    if n == 0 then [] else Copies(cell, n - 1) + [cell]
  }

  /** A row's printed cells, filled up with empty ones. */
  function Padded(row: seq<string>, width: nat): (r: seq<string>)
    requires |row| <= width
    ensures |r| == width
  {
    PrintedRow(row) + Copies("", width - |row|)
  }

  function RowLine(cells: seq<string>): string { "| " + Join(cells, " | ") + " |" }

  function Width(rows: seq<seq<string>>): (w: nat)
    ensures forall row :: row in rows ==> |row| <= w
    ensures rows != [] ==> exists row :: row in rows && |row| == w
  {
    if rows == [] then 0
    else
      var before, last := Width(rows[..|rows| - 1]), |rows[|rows| - 1]|;
      assert forall row :: row in rows ==> row in rows[..|rows| - 1] || row == rows[|rows| - 1];
      assert rows[|rows| - 1] in rows && forall row :: row in rows[..|rows| - 1] ==> row in rows;
      if |rows| == 1 || last > before then last else before
  }

  /** The cells of every row, as printed. */
  function PaddedRows(rows: seq<seq<string>>, width: nat): (r: seq<seq<string>>)
    requires forall row :: row in rows ==> |row| <= width
    ensures |r| == |rows|
    ensures forall i :: 0 <= i < |rows| ==> r[i] == Padded(rows[i], width)
  {
    if rows == [] then []
    else PaddedRows(rows[..|rows| - 1], width) + [Padded(rows[|rows| - 1], width)]
  }

  function RowLines(cells: seq<seq<string>>): (r: seq<string>)
    ensures |r| == |cells| && forall i :: 0 <= i < |r| ==> r[i] == RowLine(cells[i])
  {
    if cells == [] then [] else RowLines(cells[..|cells| - 1]) + [RowLine(cells[|cells| - 1])]
  }

  function TableLines(rows: seq<seq<string>>): (r: seq<string>)
    requires rows != []
    ensures |r| == |rows| + 1
  {
    var cells := PaddedRows(rows, Width(rows));
    [RowLine(cells[0]), RowLine(Copies("---", Width(rows)))] + RowLines(cells[1..])
  }

  function PrintTable(rows: seq<seq<string>>): string {
    if rows == [] then "" else "\n\n" + Join(TableLines(rows), "\n") + "\n\n"
  }

  // ---- Reading a printed row ----

  lemma {:induction false} SplitAtBar(a: string, b: string)
    requires a == [] || a[|a| - 1] != '\\'
    ensures SplitPipes(a + "|" + b) == SplitPipes(a) + SplitPipes(b)
    decreases |b|
  {
    hide WithCell;
    var s := a + "|" + b;
    if b == [] {
      assert s[..|s| - 1] == a && SplitPipes(b) == [[]] && SplitsLast(s);
      NewCell(SplitPipes(a), '|');
    } else {
      var init, c := b[..|b| - 1], b[|b| - 1];
      assert s[..|s| - 1] == a + "|" + init && s[|s| - 1] == c;
      SplitAtBar(a, init);
      assert SplitsLast(s) == SplitsLast(b);
      WithCellAfter(SplitPipes(a), SplitPipes(init), c, SplitsLast(b));
    }
  }

  lemma NewCell(cells: seq<string>, c: char)
    requires cells != []
    ensures WithCell(cells, c, true) == cells + [[]]
  {}

  lemma WithCellAfter(a: seq<string>, b: seq<string>, c: char, splits: bool)
    requires b != []
    ensures WithCell(a + b, c, splits) == a + WithCell(b, c, splits)
  {
    assert (a + b)[..|a + b| - 1] == a + b[..|b| - 1];
  }

  lemma {:induction false} OneCell(s: string)
    requires NoBarePipe(s)
    ensures SplitPipes(s) == [s]
  {
    hide WithCell;
    if s != [] {
      var init, c := s[..|s| - 1], s[|s| - 1];
      OneCell(init);
      assert s == init + [c] && !SplitsLast(s);
      Extended(init, c);
    }
  }

  lemma Extended(cell: string, c: char)
    ensures WithCell([cell], c, false) == [cell + [c]]
  {}

  function Spaced(cells: seq<string>): (r: seq<string>)
    ensures |r| == |cells| && forall i :: 0 <= i < |r| ==> r[i] == " " + cells[i] + " "
  {
    if cells == [] then [] else Spaced(cells[..|cells| - 1]) + [" " + cells[|cells| - 1] + " "]
  }

  lemma {:induction false} SplitJoined(cells: seq<string>)
    requires cells != [] && forall c :: c in cells ==> NoBarePipe(c)
    ensures SplitPipes(" " + Join(cells, " | ") + " ") == Spaced(cells)
  {
    hide NoBarePipe, SplitPipes;
    var init, last := cells[..|cells| - 1], cells[|cells| - 1];
    assert last in cells;
    SpacedIsOneCell(last);
    if |cells| == 1 {
      assert Spaced(init) == [];
    } else {
      assert forall c :: c in init ==> c in cells;
      SplitJoined(init);
      var a, b := " " + Join(init, " | ") + " ", " " + last + " ";
      assert " " + Join(cells, " | ") + " " == a + "|" + b;
      SplitAtBar(a, b);
    }
  }

  lemma SpacedIsOneCell(cell: string)
    requires NoBarePipe(cell)
    ensures SplitPipes(" " + cell + " ") == [" " + cell + " "]
  {
    var s := " " + cell + " ";
    forall i | 0 <= i < |s| && s[i] == '|' ensures i > 0 && s[i - 1] == '\\' {
      assert cell[i - 1] == '|';
    }
    OneCell(s);
  }

  /** Reading a printed row gives its cells back. */
  lemma RowReadsBack(cells: seq<string>)
    requires forall c :: c in cells ==> Clean(c)
    ensures cells != [] ==> Cells(RowLine(cells)) == cells
    ensures cells == [] ==> Cells(RowLine(cells)) == [""]
  {
    hide SplitPipes, NoBarePipe, Trimmed, Trim;
    var row := RowLine(cells);
    var inner := " " + Join(cells, " | ") + " ";
    BarsAreNotTrimmed(Join(cells, " | "));
    assert StripTail(StripLead(row)) == inner;
    if cells == [] {
      assert inner == " " + "" + " ";
      NothingIsClean();
      SpacedIsOneCell("");
      TrimSpaced("");
    } else {
      SplitJoined(cells);
      var parts := TrimAll(Spaced(cells));
      forall i | 0 <= i < |cells| ensures parts[i] == cells[i] {
        assert cells[i] in cells;
        TrimSpaced(cells[i]);
      }
      assert parts == cells;
    }
  }

  lemma NothingIsClean()
    ensures Clean("")
  {}

  lemma BarsAreNotTrimmed(s: string)
    ensures Trim("| " + s + " |") == "| " + s + " |"
  {
    assert !IsSpace('|');
    TrimmedIsFixed("| " + s + " |");
  }

  lemma RowIsARow(cells: seq<string>)
    requires forall c :: c in cells ==> '\n' !in c
    ensures IsRow(RowLine(cells)) && Marker(RowLine(cells)).None? && '\n' !in RowLine(cells)
  {
    var row := RowLine(cells);
    BarsAreNotTrimmed(Join(cells, " | "));
    assert row[0] == '|' && !IsSpace('|') && TrimStart(row) == row;
    JoinHasNoBreak(cells);
  }

  lemma {:induction false} JoinHasNoBreak(cells: seq<string>)
    requires forall c :: c in cells ==> '\n' !in c
    ensures '\n' !in Join(cells, " | ")
  {
    if cells != [] {
      assert cells[|cells| - 1] in cells;
      JoinHasNoBreak(cells[..|cells| - 1]);
    }
  }

  // ---- Reading a printed table ----

  predicate Fits(rows: seq<seq<string>>) {
    2 <= Width(rows) <= MAX_COLUMNS && 1 <= |rows| - 1 <= MAX_ROWS
  }

  lemma PaddedIsClean(row: seq<string>, width: nat)
    requires |row| <= width
    ensures forall c :: c in Padded(row, width) ==> Clean(c)
  {
    hide Clean, Printed;
    forall c | c in Padded(row, width) ensures Clean(c) {
      var i :| 0 <= i < width && Padded(row, width)[i] == c;
      if i < |row| {
        PrintedIsClean(row[i]);
      } else {
        NothingIsClean();
      }
    }
  }

  lemma RulesAreClean(width: nat)
    ensures forall c :: c in Copies("---", width) ==> Clean(c)
    ensures AllRules(Copies("---", width))
  {
    assert Clean("---") && IsRule("---");
  }

  lemma {:induction false} CountsPrintedRows(cells: seq<seq<string>>, rest: seq<string>)
    requires forall row, c :: row in cells && c in row ==> '\n' !in c
    requires rest == [] || !IsRow(rest[0])
    ensures RowCount(RowLines(cells) + rest) == |cells|
    decreases |cells|
  {
    hide IsRow, RowLine;
    var lines := RowLines(cells) + rest;
    if cells == [] {
      assert lines == rest;
    } else {
      assert cells[0] in cells;
      RowIsARow(cells[0]);
      assert RowLines(cells)[1..] == RowLines(cells[1..]);
      assert lines[1..] == RowLines(cells[1..]) + rest;
      CountsPrintedRows(cells[1..], rest);
    }
  }

  lemma RowsReadBack(cells: seq<seq<string>>)
    requires forall row :: row in cells ==> row != []
    requires forall row, c :: row in cells && c in row ==> Clean(c)
    ensures CellsOf(RowLines(cells)) == cells
  {
    hide Clean, Cells, RowLine;
    var read := CellsOf(RowLines(cells));
    forall i | 0 <= i < |cells| ensures read[i] == cells[i] {
      assert cells[i] in cells;
      RowReadsBack(cells[i]);
    }
    assert read == cells;
  }

  /** In any document, where no fence is open, a printed table followed by a line that is not a row is read as a table
      exactly when it has 2 to 20 columns and 1 to 100 rows under its heading; its cells are those printed. */
  lemma PrintedTableIsRead(rows: seq<seq<string>>, rest: seq<string>)
    requires rows != [] && (rest == [] || !IsRow(rest[0]))
    ensures StartsTable(TableLines(rows) + rest) <==> Fits(rows)
    ensures NextFence(None, TableLines(rows)[0]).None?
    ensures Fits(rows) ==>
      var cells := PaddedRows(rows, Width(rows));
      Gather(Blocks(TableLines(rows) + rest, None)) == [Table(cells[0], cells[1..])] + Gather(Blocks(rest, None))
  {
    hide Clean, Cells, RowLine, IsRow, Width, Padded, Blocks, Gather, RowCount, Marker, AllRules, CellsOf, Copies;
    hide StartsTable;
    var w := Width(rows);
    var cells := PaddedRows(rows, w);
    PaddedRowsAreClean(rows, w);
    var lines := TableLines(rows) + rest;
    assert lines == [RowLine(cells[0]), RowLine(Copies("---", w))] + RowLines(cells[1..]) + rest;
    CleanTableIsRead(cells, w, rest);
    if Fits(rows) {
      TableStep(lines, None);
    }
  }

  ghost predicate CleanRow(row: seq<string>, width: nat) { |row| == width && forall c :: c in row ==> Clean(c) }

  lemma PaddedRowsAreClean(rows: seq<seq<string>>, width: nat)
    requires forall row :: row in rows ==> |row| <= width
    ensures forall row :: row in PaddedRows(rows, width) ==> CleanRow(row, width)
  {
    hide Clean, Padded;
    var cells := PaddedRows(rows, width);
    forall row | row in cells ensures CleanRow(row, width) {
      var i :| 0 <= i < |cells| && cells[i] == row;
      assert rows[i] in rows;
      PaddedIsClean(rows[i], width);
    }
  }

  lemma CleanRowReads(row: seq<string>, width: nat)
    requires CleanRow(row, width)
    ensures |Cells(RowLine(row))| == if width == 0 then 1 else width
    ensures width > 0 ==> Cells(RowLine(row)) == row
    ensures NextFence(None, RowLine(row)).None?
    ensures forall c :: c in row ==> '\n' !in c
  {
    hide Clean, Cells, RowLine, IsRow, Marker;
    forall c | c in row ensures '\n' !in c { CleanHasNoBreak(c); }
    RowReadsBack(row);
    RowIsARow(row);
  }

  lemma CleanTableIsRead(cells: seq<seq<string>>, w: nat, rest: seq<string>)
    requires cells != [] && forall row :: row in cells ==> CleanRow(row, w)
    requires rest == [] || !IsRow(rest[0])
    ensures var lines := [RowLine(cells[0]), RowLine(Copies("---", w))] + RowLines(cells[1..]) + rest;
      && (StartsTable(lines) <==> 2 <= w <= MAX_COLUMNS && 1 <= |cells| - 1 <= MAX_ROWS)
      && NextFence(None, lines[0]).None?
      && RowCount(lines[2..]) == |cells| - 1 && lines[2 + |cells| - 1..] == rest
      && (w > 0 ==> Cells(lines[0]) == cells[0] && CellsOf(lines[2..2 + |cells| - 1]) == cells[1..])
  {
    hide Cells, RowLine, RowLines, IsRow, RowCount, NextFence, AllRules, CellsOf, Copies, StartsTable, CleanRow;
    var body := cells[1..];
    var top := [RowLine(cells[0]), RowLine(Copies("---", w))];
    var lines := top + RowLines(body) + rest;
    assert cells[0] in cells && forall row :: row in body ==> row in cells;
    RulesRow(w);
    CleanRowReads(cells[0], w);
    CleanRowReads(Copies("---", w), w);
    assert lines == top + (RowLines(body) + rest) && lines[2..] == RowLines(body) + rest;
    RowsStand(lines, RowLines(body), rest);
    BodyReads(body, w, rest);
    BoundsDecide(lines, body, w);
  }

  lemma RulesRow(width: nat)
    ensures CleanRow(Copies("---", width), width) && AllRules(Copies("---", width))
  {
    RulesAreClean(width);
  }

  lemma BodyReads(body: seq<seq<string>>, w: nat, rest: seq<string>)
    requires forall row :: row in body ==> CleanRow(row, w)
    requires rest == [] || !IsRow(rest[0])
    ensures RowCount(RowLines(body) + rest) == |body|
    ensures w > 0 ==> CellsOf(RowLines(body)) == body
    ensures forall row :: row in body ==> |row| == w
  {
    hide Clean, Cells, RowLine, IsRow, RowCount, CellsOf;
    forall row | row in body ensures forall c :: c in row ==> '\n' !in c { CleanRowReads(row, w); }
    CountsPrintedRows(body, rest);
    if w > 0 {
      RowsReadBack(body);
    }
  }

  /** For lines that read back as such cells only the bounds are left to decide. */
  lemma BoundsDecide(lines: seq<string>, body: seq<seq<string>>, w: nat)
    requires |lines| >= 2 && RowCount(lines[2..]) == |body| && AllRules(Copies("---", w))
    requires |Cells(lines[0])| == |Cells(lines[1])| == if w == 0 then 1 else w
    requires w > 0 ==> Cells(lines[1]) == Copies("---", w) && CellsOf(lines[2..2 + |body|]) == body
    requires forall row :: row in body ==> |row| == w
    ensures StartsTable(lines) <==> 2 <= w <= MAX_COLUMNS && 1 <= |body| <= MAX_ROWS
  {
    hide Cells, CellsOf, RowCount, AllRules, Copies;
  }

  lemma RowsStand(lines: seq<string>, rows: seq<string>, rest: seq<string>)
    requires |lines| >= 2 && lines[2..] == rows + rest
    ensures lines[2..2 + |rows|] == rows && lines[2 + |rows|..] == rest
  {
    assert lines[2..2 + |rows|] == lines[2..][..|rows|] && lines[2 + |rows|..] == lines[2..][|rows|..];
  }

  lemma CleanHasNoBreak(s: string)
    requires Clean(s)
    ensures '\n' !in s
  {}

  lemma PrintedTableLines(rows: seq<seq<string>>)
    requires rows != []
    ensures Lines(PrintTable(rows)) == ["", ""] + TableLines(rows) + ["", ""]
  {
    hide Clean, RowLine, Width, Padded, Lines;
    var lines := TableLines(rows);
    var cells := PaddedRows(rows, Width(rows));
    forall line | line in lines ensures '\n' !in line {
      var i :| 0 <= i < |lines| && lines[i] == line;
      if i == 1 {
        RulesAreClean(Width(rows));
        forall c | c in Copies("---", Width(rows)) ensures '\n' !in c { CleanHasNoBreak(c); }
        RowIsARow(Copies("---", Width(rows)));
      } else {
        var k := if i == 0 then 0 else i - 1;
        assert line == RowLine(cells[k]) && rows[k] in rows;
        PaddedIsClean(rows[k], Width(rows));
        forall c | c in cells[k] ensures '\n' !in c { CleanHasNoBreak(c); }
        RowIsARow(cells[k]);
      }
    }
    LinesOfJoin(lines);
    Framed(Join(lines, "\n"));
  }

  /** The empty lines printed around a block. */
  lemma Framed(text: string)
    ensures Lines("\n\n" + text + "\n\n") == ["", ""] + Lines(text) + ["", ""]
  {
    hide Lines;
    LineOf("");
    LinesConcat("", "");
    LinesConcat(text, "" + "\n" + "");
    LinesConcat("", text + "\n" + "\n");
    LinesConcat("", "" + "\n" + (text + "\n" + "\n"));
    assert "\n\n" + text + "\n\n" == "" + "\n" + ("" + "\n" + (text + "\n" + "\n"));
    assert "" + "\n" + "" == "\n";
  }

  /** Reading what was printed for a table gives that table back, short rows filled up, exactly when it has 2 to 20
      columns and 1 to 100 rows under its heading, whatever text its cells hold. */
  lemma TableRoundTrip(rows: seq<seq<string>>)
    requires rows != []
    ensures var cells := PaddedRows(rows, Width(rows));
      Shown(Lines(PrintTable(rows))) == [Text(["", ""]), Table(cells[0], cells[1..]), Text(["", ""])] <==> Fits(rows)
  {
    hide Cells, RowLine, IsRow, Width, Padded, Blocks, Gather, RowCount, Marker, AllRules, CellsOf, TableLines;
    hide StartsTable, Lines, PrintTable, Covers, FenceAfter, PaddedRows;
    var cells := PaddedRows(rows, Width(rows));
    var all := Lines(PrintTable(rows));
    PrintedTableLines(rows);
    var after := ["", ""];
    assert rows[0] in rows;
    EmptyLinesRead(TableLines(rows) + after);
    assert all == ["", ""] + (TableLines(rows) + after);
    if Fits(rows) {
      EmptyIsNoRow();
      PrintedTableIsRead(rows, after);
      EmptyLinesRead([]);
      assert after + [] == after;
      NothingLeft(None, []);
      AheadOfNothing(Gather(Blocks([], None)));
      assert Gather(Blocks(after, None)) == [Text(after)];
    }
    if Shown(all) == [Text(["", ""]), Table(cells[0], cells[1..]), Text(["", ""])] {
      ReadingIsLossless(all);
      assert Shown(all)[1] in Shown(all);
      assert |cells[0]| == Width(rows);
    }
  }

  lemma EmptyIsNoRow()
    ensures !IsRow("")
  {}

  /** Two empty lines are text. */
  lemma EmptyLinesRead(rest: seq<string>)
    ensures Gather(Blocks(["", ""] + rest, None)) == Ahead(["", ""], Gather(Blocks(rest, None)))
    ensures Blocks(["", ""] + rest, None) == [Line(""), Line("")] + Blocks(rest, None)
  {
    hide StartsTable, Blocks, Gather, Ahead, Cells;
    EmptyLine();
    var one, two := [""] + rest, ["", ""] + rest;
    assert two[1..] == one && one[1..] == rest;
    NotAHeading(two);
    NotAHeading(one);
    LineStep(two, None);
    LineStep(one, None);
    AheadAhead([""], [""], Gather(Blocks(rest, None)));
    assert [""] + [""] == ["", ""];
  }

  lemma EmptyLine()
    ensures Cells("") == [""] && Marker("").None? && NextFence(None, "") == None
  {
    assert Trim("") == "" && SplitPipes("") == [""];
    assert TrimAll([""]) == [""];
  }

  // ---- Code blocks ----

  /** One backtick more than the longest run in the text. */
  function FenceFor(text: string, least: nat): string {
    Repeat('`', if LongestRun(text, '`') + 1 > least then LongestRun(text, '`') + 1 else least)
  }

  function PrintBlock(text: string): string {
    "\n\n" + (FenceFor(text, 3) + "\n" + text + "\n" + FenceFor(text, 3)) + "\n\n"
  }

  function BlockLines(text: string): seq<string> { [FenceFor(text, 3)] + Lines(text) + [FenceFor(text, 3)] }

  lemma PrintedBlockLines(text: string)
    ensures Lines(PrintBlock(text)) == ["", ""] + BlockLines(text) + ["", ""]
  {
    hide Lines;
    var f := FenceFor(text, 3);
    LineOf(f);
    LinesConcat(text, f);
    LinesConcat(f, text + "\n" + f);
    assert f + "\n" + text + "\n" + f == f + "\n" + (text + "\n" + f);
    Framed(f + "\n" + text + "\n" + f);
  }

  lemma {:induction false} TrimStartIsSuffix(s: string) returns (i: nat)
    ensures i <= |s| && TrimStart(s) == s[i..]
  {
    if s != [] && IsSpace(s[0]) {
      var k := TrimStartIsSuffix(s[1..]);
      i := k + 1;
    } else {
      i := 0;
    }
  }

  lemma FenceMarks(text: string, least: nat)
    requires least >= 3
    ensures var f := FenceFor(text, least); Marker(f) == Some(Fence('`', |f|)) && |Cells(f)| == 1
  {
    hide Cells, TrimStart;
    var f := FenceFor(text, least);
    RunOfRepeat('`', |f|, []);
    assert f + [] == f && !IsSpace('`') && f[0] == '`';
    StartsSolid(f);
    NoPipeOneCell(f);
  }

  lemma StartsSolid(s: string)
    requires s != [] && !IsSpace(s[0])
    ensures TrimStart(s) == s
  {}

  lemma NoPipeOneCell(s: string)
    requires Trimmed(s) && '|' !in s
    ensures |Cells(s)| == 1
  {
    TrimmedIsFixed(s);
    OneCell(s);
  }

  /** A line of the text cannot close the fence chosen for it. */
  lemma TextStaysOpen(text: string, least: nat)
    requires least >= 3
    ensures StaysOpen(Fence('`', |FenceFor(text, least)|), Lines(text))
  {
    hide Lines, Run, TrimStart;
    forall line | line in Lines(text)
      ensures Marker(line).None? || !Closes(Fence('`', |FenceFor(text, least)|), Marker(line).value)
    {
      var i := TrimStartIsSuffix(line);
      LineRuns(text, '`', line, i);
    }
  }

  /** Whatever a code block holds, the saved-document reader shows all of it as text and carries on after it as though
      it were not there. */
  lemma PrintedBlockStaysText(text: string, rest: seq<string>)
    ensures Blocks(Lines(PrintBlock(text)) + rest, None)
         == AsLines(Lines(PrintBlock(text))) + Blocks(rest, None)
  {
    hide Lines, Blocks, Marker, Cells, StaysOpen, BlockLines, AsLines, FenceFor;
    PrintedBlockLines(text);
    var f := FenceFor(text, 3);
    FenceMarks(text, 3);
    TextStaysOpen(text, 3);
    var after := ["", ""] + rest;
    BlockIsFramed(text);
    FencedCodeStaysText(f, Lines(text), f, after);
    assert Lines(PrintBlock(text)) + rest == ["", ""] + (BlockLines(text) + after);
    EmptyLinesRead(BlockLines(text) + after);
    EmptyLinesRead(rest);
    EmptyAsLines();
    AsLinesConcat(["", ""], BlockLines(text));
    AsLinesConcat(["", ""] + BlockLines(text), ["", ""]);
  }

  lemma BlockIsFramed(text: string)
    ensures BlockLines(text) == [FenceFor(text, 3)] + Lines(text) + [FenceFor(text, 3)]
  {}

  lemma EmptyAsLines()
    ensures AsLines(["", ""]) == [Line(""), Line("")]
  {
    assert ["", ""][1..] == [""] && [""][1..] == [];
    assert AsLines([""]) == [Line("")] + AsLines([]);
  }
}
