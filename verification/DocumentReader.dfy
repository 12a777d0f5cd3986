/** The saved-document reader: splits lines into running text and tables, minding fenced code. */
module DocumentReader {
  import opened Options
  import opened TextLines

  const MAX_COLUMNS: nat := 20
  const MAX_ROWS: nat := 100

  // ---- One line ----

  function StripLead(s: string): string { if s != [] && s[0] == '|' then s[1..] else s }

  function StripTail(s: string): string { if s != [] && s[|s| - 1] == '|' then s[..|s| - 1] else s }

  /** Split at every '|' that no backslash precedes. */
  function SplitPipes(s: string): (r: seq<string>)
    ensures r != []
  {
    if s == [] then [[]] else WithCell(SplitPipes(s[..|s| - 1]), s[|s| - 1], SplitsLast(s))
  }

  predicate SplitsLast(s: string)
    requires s != []
  {
    s[|s| - 1] == '|' && (|s| == 1 || s[|s| - 2] != '\\')
  }

  function WithCell(cells: seq<string>, c: char, splits: bool): (r: seq<string>)
    requires cells != []
    ensures r != []
  {
    if splits then cells + [[]] else cells[..|cells| - 1] + [cells[|cells| - 1] + [c]]
  }

  function TrimAll(parts: seq<string>): (r: seq<string>)
    ensures |r| == |parts| && forall i :: 0 <= i < |parts| ==> r[i] == Trim(parts[i])
  {
    if parts == [] then [] else TrimAll(parts[..|parts| - 1]) + [Trim(parts[|parts| - 1])]
  }

  function Cells(line: string): (r: seq<string>)
    ensures r != []
  {
    TrimAll(SplitPipes(StripTail(StripLead(Trim(line)))))
  }

  /** A rule without the colon it may have at either end. */
  function RuleBody(s: string): string {
    var t := if s != [] && s[0] == ':' then s[1..] else s;
    if t != [] && t[|t| - 1] == ':' then t[..|t| - 1] else t
  }

  predicate AllDashes(s: string) { forall i :: 0 <= i < |s| ==> s[i] == '-' }

  /** A cell of the line under the headings: dashes with an optional colon at either end. */
  predicate IsRule(s: string) { |RuleBody(s)| >= 3 && AllDashes(RuleBody(s)) }

  predicate AllRules(cells: seq<string>) { forall c :: c in cells ==> IsRule(c) }

  datatype Fence = Fence(mark: char, length: nat)

  function Marker(line: string): Option<Fence> {
    var t := TrimStart(line);
    if Run(t, '`') >= 3 then Some(Fence('`', Run(t, '`')))
    else if Run(t, '~') >= 3 then Some(Fence('~', Run(t, '~')))
    else None
  }

  predicate Closes(open: Fence, marker: Fence) { marker.mark == open.mark && marker.length >= open.length }

  /** The fence in force at a line, given the one in force before it. */
  function NextFence(fence: Option<Fence>, line: string): Option<Fence> {
    var marker := Marker(line);
    if marker.None? then fence
    else if fence.None? then marker
    else if Closes(fence.value, marker.value) then None
    else fence
  }

  predicate IsRow(line: string) { '|' in line && Trim(line) != [] }

  // ---- Tables ----

  function RowCount(lines: seq<string>): (n: nat)
    ensures n <= |lines|
  {
    if lines != [] && IsRow(lines[0]) then 1 + RowCount(lines[1..]) else 0
  }

  function CellsOf(lines: seq<string>): (r: seq<seq<string>>)
    ensures |r| == |lines| && forall i :: 0 <= i < |lines| ==> r[i] == Cells(lines[i])
  {
    seq(|lines|, i requires 0 <= i < |lines| => Cells(lines[i]))
  }

  predicate Rectangular(rows: seq<seq<string>>, width: nat) { forall r :: r in rows ==> |r| == width }

  predicate HasHeading(lines: seq<string>)
    requires lines != []
  {
    && 2 <= |Cells(lines[0])| <= MAX_COLUMNS
    && |lines| > 1 && |Cells(lines[1])| == |Cells(lines[0])| && AllRules(Cells(lines[1]))
  }

  /** Whether a table begins at the first of these lines. */
  predicate StartsTable(lines: seq<string>): (r: bool)
    requires lines != []
    ensures r ==> |lines| > 2
  {
    && HasHeading(lines)
    && var n := RowCount(lines[2..]);
       1 <= n <= MAX_ROWS && Rectangular(CellsOf(lines[2..2 + n]), |Cells(lines[0])|)
  }

  datatype Block = Line(text: string) | Grid(headings: seq<string>, rows: seq<seq<string>>)

  /** What the lines are, one at a time or one table at a time. */
  function Blocks(lines: seq<string>, fence: Option<Fence>): seq<Block>
    decreases |lines|
  {
    if lines == [] then []
    else
      var now := NextFence(fence, lines[0]);
      if now.None? && StartsTable(lines) then
        var n := RowCount(lines[2..]);
        [Grid(Cells(lines[0]), CellsOf(lines[2..2 + n]))] + Blocks(lines[2 + n..], None)
      else [Line(lines[0])] + Blocks(lines[1..], now)
  }

  datatype Part = Text(lines: seq<string>) | Table(headings: seq<string>, rows: seq<seq<string>>)

  /** Text put in front of parts: it joins text already there. */
  function Ahead(text: seq<string>, parts: seq<Part>): seq<Part> {
    if text == [] then parts
    else if parts != [] && parts[0].Text? then [Text(text + parts[0].lines)] + parts[1..]
    else [Text(text)] + parts
  }

  /** Neighbouring lines gathered into one text part. */
  function Gather(blocks: seq<Block>): seq<Part> {
    if blocks == [] then []
    else
      match blocks[0]
      case Line(text) => Ahead([text], Gather(blocks[1..]))
      case Grid(headings, rows) => [Table(headings, rows)] + Gather(blocks[1..])
  }

  /** The document as shown. */
  function Shown(lines: seq<string>): seq<Part> { Gather(Blocks(lines, None)) }

  lemma AheadAhead(a: seq<string>, b: seq<string>, parts: seq<Part>)
    ensures Ahead(a, Ahead(b, parts)) == Ahead(a + b, parts)
  {
    if a == [] {
      assert a + b == b;
    } else if b == [] {
      assert a + b == a;
    } else if parts != [] && parts[0].Text? {
      assert a + (b + parts[0].lines) == a + b + parts[0].lines;
      assert ([Text(b + parts[0].lines)] + parts[1..])[1..] == parts[1..];
    } else {
      assert ([Text(b)] + parts)[1..] == parts;
    }
  }

  method CountRows(lines: seq<string>, from: nat) returns (end: nat)
    requires from <= |lines|
    ensures end == from + RowCount(lines[from..]) && end <= |lines|
  {
    end := from;
    while end < |lines| && IsRow(lines[end])
      invariant from <= end <= |lines|
      invariant from + RowCount(lines[from..]) == end + RowCount(lines[end..])
    {
      assert lines[end..][1..] == lines[end + 1..];
      end := end + 1;
    }
  }

  /** One line read as text. */
  lemma LineStep(lines: seq<string>, fence: Option<Fence>)
    requires lines != [] && !(NextFence(fence, lines[0]).None? && StartsTable(lines))
    ensures Blocks(lines, fence) == [Line(lines[0])] + Blocks(lines[1..], NextFence(fence, lines[0]))
    ensures Gather(Blocks(lines, fence)) == Ahead([lines[0]], Gather(Blocks(lines[1..], NextFence(fence, lines[0]))))
  {
    hide NextFence, StartsTable, RowCount, CellsOf, Cells, Ahead;
    var rest := Blocks(lines[1..], NextFence(fence, lines[0]));
    assert ([Line(lines[0])] + rest)[1..] == rest;
  }

  /** One table read. */
  lemma TableStep(lines: seq<string>, fence: Option<Fence>)
    requires lines != [] && NextFence(fence, lines[0]).None? && StartsTable(lines)
    ensures var n := RowCount(lines[2..]);
      Gather(Blocks(lines, fence))
      == [Table(Cells(lines[0]), CellsOf(lines[2..2 + n]))] + Gather(Blocks(lines[2 + n..], None))
  {
    hide NextFence, StartsTable, RowCount, CellsOf, Cells, Ahead;
    var n := RowCount(lines[2..]);
    var grid, rest := [Grid(Cells(lines[0]), CellsOf(lines[2..2 + n]))], Blocks(lines[2 + n..], None);
    assert Blocks(lines, fence) == grid + rest && (grid + rest)[1..] == rest;
  }

  method TableAt(lines: seq<string>, i: nat) returns (isTable: bool, end: nat)
    requires i < |lines|
    ensures isTable == StartsTable(lines[i..])
    ensures isTable ==> i + 2 <= end <= |lines| && end - i - 2 == RowCount(lines[i..][2..])
  {
    hide Cells, CellsOf, IsRow, RowCount, AllRules;
    isTable, end := false, i + 1;
    if HasHeading(lines[i..]) {
      end := CountRows(lines, i + 2);
      ghost var ahead := lines[i..];
      assert ahead[2..] == lines[i + 2..] && ahead[2..2 + (end - i - 2)] == lines[i + 2..end];
      isTable := 1 <= end - i - 2 <= MAX_ROWS && Rectangular(CellsOf(lines[i + 2..end]), |Cells(lines[i])|);
    }
  }

  /** The reading loop. */
  method Read(lines: seq<string>) returns (parts: seq<Part>)
    ensures parts == Shown(lines)
  {
    hide NextFence, StartsTable, RowCount, CellsOf, Cells, Blocks, Gather, Ahead;
    parts := [];
    var plain: seq<string> := [];
    var fence: Option<Fence> := None;
    var i := 0;
    assert lines[0..] == lines;
    AheadOfNothing(Gather(Blocks(lines[i..], fence)));
    while i < |lines|
      invariant 0 <= i <= |lines|
      invariant Shown(lines) == parts + Ahead(plain, Gather(Blocks(lines[i..], fence)))
      decreases |lines| - i
    {
      ghost var ahead, before := lines[i..], fence;
      fence := NextFence(fence, lines[i]);
      var isTable, end := false, i;
      if fence.None? {
        isTable, end := TableAt(lines, i);
      }
      if isTable {
        TableStep(ahead, before);
        AheadOfTable(plain, Gather(Blocks(ahead, before)));
        AheadOfNothing(Gather(Blocks(lines[end..], None)));
        assert ahead[2..][..end - i - 2] == ahead[2..end - i] == lines[i + 2..end] && ahead[end - i..] == lines[end..];
        if plain != [] {
          parts := parts + [Text(plain)];
        }
        parts, plain := parts + [Table(Cells(lines[i]), CellsOf(lines[i + 2..end]))], [];
        i := end;
      } else {
        LineStep(ahead, before);
        assert ahead[1..] == lines[i + 1..];
        AheadAhead(plain, [lines[i]], Gather(Blocks(lines[i + 1..], fence)));
        plain := plain + [lines[i]];
        i := i + 1;
      }
    }
    assert lines[i..] == [];
    NothingLeft(fence, plain);
    if plain != [] {
      parts := parts + [Text(plain)];
    }
  }

  lemma AheadOfNothing(parts: seq<Part>)
    ensures Ahead([], parts) == parts
  {}

  lemma AheadOfTable(plain: seq<string>, parts: seq<Part>)
    requires parts != [] && parts[0].Table?
    ensures Ahead(plain, parts) == (if plain == [] then [] else [Text(plain)]) + parts
  {}

  lemma NothingLeft(fence: Option<Fence>, plain: seq<string>)
    ensures Ahead(plain, Gather(Blocks([], fence))) == if plain == [] then [] else [Text(plain)]
  {}

  // ---- Nothing lost, nothing repeated ----

  function FenceAfter(fence: Option<Fence>, lines: seq<string>): Option<Fence>
    decreases |lines|
  {
    if lines == [] then fence else FenceAfter(NextFence(fence, lines[0]), lines[1..])
  }

  /** The parts, in order, account for every line exactly once: text parts hold their lines as they are, and a table
      stands for a heading line outside any open fence, the rule under it and its row lines. */
  ghost predicate Covers(parts: seq<Part>, lines: seq<string>, fence: Option<Fence>)
    decreases |parts|
  {
    if parts == [] then lines == []
    else
      match parts[0]
      case Text(text) => text != [] && text <= lines && Covers(parts[1..], lines[|text|..], FenceAfter(fence, text))
      case Table(headings, rows) =>
        && |lines| >= 2 + |rows| && NextFence(fence, lines[0]).None?
        && Cells(lines[0]) == headings && AllRules(Cells(lines[1])) && CellsOf(lines[2..2 + |rows|]) == rows
        && Covers(parts[1..], lines[2 + |rows|..], None)
  }

  ghost predicate Shaped(headings: seq<string>, rows: seq<seq<string>>) {
    2 <= |headings| <= MAX_COLUMNS && 1 <= |rows| <= MAX_ROWS && Rectangular(rows, |headings|)
  }

  /** Tables are rectangular and within bounds, and no two text parts stand side by side. */
  ghost predicate WellShaped(parts: seq<Part>) {
    && (forall p :: p in parts && p.Table? ==> Shaped(p.headings, p.rows))
    && (forall i :: 0 <= i && i + 1 < |parts| && parts[i].Text? ==> parts[i + 1].Table?)
  }

  lemma AheadCovers(line: string, parts: seq<Part>, lines: seq<string>, fence: Option<Fence>)
    requires Covers(parts, lines, NextFence(fence, line)) && WellShaped(parts)
    ensures Covers(Ahead([line], parts), [line] + lines, fence) && WellShaped(Ahead([line], parts))
  {
    hide NextFence, Cells, CellsOf, AllRules;
    var all := [line] + lines;
    assert FenceAfter(fence, [line]) == FenceAfter(NextFence(fence, line), [line][1..]) == NextFence(fence, line);
    var r := Ahead([line], parts);
    assert all[1..] == lines;
    if parts != [] && parts[0].Text? {
      var text := parts[0].lines;
      assert [line] + text <= all && all[|[line] + text|..] == lines[|text|..];
      assert ([line] + text)[1..] == text && r[1..] == parts[1..];
      assert forall i :: 0 <= i < |parts| ==> parts[i] in parts;
    } else {
      assert r[1..] == parts;
    }
  }

  lemma {:induction false} ReadingCovers(lines: seq<string>, fence: Option<Fence>)
    ensures Covers(Gather(Blocks(lines, fence)), lines, fence) && WellShaped(Gather(Blocks(lines, fence)))
    decreases |lines|
  {
    hide NextFence, StartsTable, RowCount, CellsOf, Cells, Blocks, Gather, Ahead, WellShaped, Covers;
    if lines == [] {
      NothingLeft(fence, []);
      AheadOfNothing(Gather(Blocks([], fence)));
      NothingIsCovered(fence);
    } else {
      var now := NextFence(fence, lines[0]);
      if now.None? && StartsTable(lines) {
        var n := RowCount(lines[2..]);
        ReadingCovers(lines[2 + n..], None);
        TableStep(lines, fence);
        TableCovers(lines, Gather(Blocks(lines[2 + n..], None)), fence);
      } else {
        ReadingCovers(lines[1..], now);
        LineStep(lines, fence);
        AheadCovers(lines[0], Gather(Blocks(lines[1..], now)), lines[1..], fence);
        assert [lines[0]] + lines[1..] == lines;
      }
    }
  }

  lemma NothingIsCovered(fence: Option<Fence>)
    ensures Covers([], [], fence) && WellShaped([])
  {}

  lemma TableCovers(lines: seq<string>, rest: seq<Part>, fence: Option<Fence>)
    requires lines != [] && NextFence(fence, lines[0]).None? && StartsTable(lines)
    requires Covers(rest, lines[2 + RowCount(lines[2..])..], None) && WellShaped(rest)
    ensures var n := RowCount(lines[2..]);
      var parts := [Table(Cells(lines[0]), CellsOf(lines[2..2 + n]))] + rest;
      Covers(parts, lines, fence) && WellShaped(parts)
  {
    hide NextFence, RowCount, CellsOf, Cells, AllRules, Rectangular;
    var n := RowCount(lines[2..]);
    var parts := [Table(Cells(lines[0]), CellsOf(lines[2..2 + n]))] + rest;
    assert parts[1..] == rest;
  }

  /** For every list of lines, the shown parts account for each line exactly once, no table begins inside an open
      fence, and each table is rectangular with 2 to 20 columns and 1 to 100 rows. */
  lemma ReadingIsLossless(lines: seq<string>)
    ensures Covers(Shown(lines), lines, None) && WellShaped(Shown(lines))
  {
    ReadingCovers(lines, None);
  }

  // ---- Fenced code ----

  function AsLines(lines: seq<string>): seq<Block> {
    if lines == [] then [] else [Line(lines[0])] + AsLines(lines[1..])
  }

  /** No line of the body closes the fence. */
  ghost predicate StaysOpen(open: Fence, body: seq<string>) {
    forall line :: line in body ==> Marker(line).None? || !Closes(open, Marker(line).value)
  }

  lemma {:induction false} BodyStaysText(open: Fence, body: seq<string>, rest: seq<string>)
    requires StaysOpen(open, body)
    ensures Blocks(body + rest, Some(open)) == AsLines(body) + Blocks(rest, Some(open))
  {
    hide Blocks, Marker, Closes, StartsTable, Gather;
    if body == [] {
      assert body + rest == rest;
    } else {
      assert body[0] in body && forall x :: x in body[1..] ==> x in body;
      assert (body + rest)[0] == body[0] && (body + rest)[1..] == body[1..] + rest;
      LineStep(body + rest, Some(open));
      BodyStaysText(open, body[1..], rest);
    }
  }

  lemma {:induction false} AsLinesConcat(a: seq<string>, b: seq<string>)
    ensures AsLines(a + b) == AsLines(a) + AsLines(b)
  {
    if a == [] {
      assert a + b == b;
    } else {
      assert (a + b)[1..] == a[1..] + b;
      AsLinesConcat(a[1..], b);
    }
  }

  /** Nothing between an opening fence and its closing line is ever read as a table, whatever it looks like; reading
      resumes as if the code had not been there. */
  lemma FencedCodeStaysText(open: string, body: seq<string>, close: string, rest: seq<string>)
    requires Marker(open).Some? && StaysOpen(Marker(open).value, body)
    requires Marker(close).Some? && Closes(Marker(open).value, Marker(close).value) && |Cells(close)| < 2
    ensures Blocks([open] + body + [close] + rest, None) == AsLines([open] + body + [close]) + Blocks(rest, None)
  {
    hide Marker, StartsTable, Blocks, Gather, Cells, Closes;
    var f := Marker(open).value;
    var code, lines := [open] + body + [close], [open] + body + [close] + rest;
    assert lines[1..] == body + ([close] + rest) && ([close] + rest)[1..] == rest;
    LineStep(lines, None);
    BodyStaysText(f, body, [close] + rest);
    NotAHeading([close] + rest);
    LineStep([close] + rest, Some(f));
    assert code[1..] == body + [close];
    AsLinesConcat(body, [close]);
    assert AsLines([close]) == [Line(close)] + AsLines([close][1..]);
  }

  lemma NotAHeading(lines: seq<string>)
    requires lines != [] && |Cells(lines[0])| < 2
    ensures !StartsTable(lines)
  {}

  /** A fence that is never closed keeps everything after it text. */
  lemma UnclosedCodeStaysText(open: string, body: seq<string>)
    requires Marker(open).Some? && StaysOpen(Marker(open).value, body)
    ensures Blocks([open] + body, None) == AsLines([open] + body)
  {
    assert ([open] + body)[1..] == body && body + [] == body;
    BodyStaysText(Marker(open).value, body, []);
  }
}
