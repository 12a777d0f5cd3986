/** What the user copies: the printed Markdown trimmed, with no more than two line feeds in a row anywhere, code
    included. */
module CopiedMarkdown {
  import opened Options
  import opened TextLines
  import opened DocumentReader
  import opened DocumentPrinter
  import opened MarkdownCode

  predicate ThreeAt(s: string, i: int) {
    0 <= i && i + 2 < |s| && s[i] == '\n' && s[i + 1] == '\n' && s[i + 2] == '\n'
  }

  /** Three line feeds in a row somewhere. */
  predicate HasThree(s: string) { exists i :: 0 <= i < |s| && ThreeAt(s, i) }

  /** Each run of three or more line feeds becomes two. */
  function Squeeze(s: string): string {
    if s == [] then []
    else Squeeze(s[..|s| - 1]) + if ThreeAt(s, |s| - 3) then [] else [s[|s| - 1]]
  }

  function Copied(printed: string): string { Squeeze(Trim(printed)) }

  // ---- What squeezing changes, and what it does not ----

  lemma {:induction false} SqueezeEnds(s: string)
    requires s != []
    ensures Squeeze(s) != [] && Squeeze(s)[0] == s[0] && Squeeze(s)[|Squeeze(s)| - 1] == s[|s| - 1]
    ensures |s| >= 2 ==> |Squeeze(s)| >= 2
  {
    if |s| > 1 {
      SqueezeEnds(s[..|s| - 1]);
      if |s| == 2 {
        assert Squeeze(s[..1]) == Squeeze(s[..1][..0]) + [s[0]];
      }
    } else {
      assert s[..0] == [];
    }
  }

  /** Exactly the strings with three line feeds in a row get shorter; all others stay as they are. */
  lemma {:induction false} SqueezesExactlyWhen(s: string)
    ensures Squeeze(s) == s <==> !HasThree(s)
    ensures |Squeeze(s)| <= |s| && (|Squeeze(s)| == |s| ==> !HasThree(s))
  {
    if s != [] {
      var init := s[..|s| - 1];
      SqueezesExactlyWhen(init);
      assert s == init + [s[|s| - 1]];
      if HasThree(init) {
        var i :| 0 <= i < |init| && ThreeAt(init, i);
        assert ThreeAt(s, i);
      }
      if HasThree(s) {
        var i :| 0 <= i < |s| && ThreeAt(s, i);
        if i != |s| - 3 { assert ThreeAt(init, i); }
      }
    }
  }

  /** Squeezing works on each side of a place where no two line feeds meet. */
  lemma {:induction false} SqueezeApart(a: string, b: string)
    requires a == [] || b == [] || a[|a| - 1] != '\n' || b[0] != '\n'
    ensures Squeeze(a + b) == Squeeze(a) + Squeeze(b)
    decreases |b|
  {
    hide ThreeAt;
    var s := a + b;
    if b == [] {
      assert s == a;
    } else {
      var init := b[..|b| - 1];
      assert s[..|s| - 1] == a + init && s[|s| - 1] == b[|b| - 1];
      SqueezeApart(a, init);
      ThreeApart(a, b);
    }
  }

  lemma ThreeApart(a: string, b: string)
    requires b != [] && (a == [] || a[|a| - 1] != '\n' || b[0] != '\n')
    ensures ThreeAt(a + b, |a + b| - 3) == ThreeAt(b, |b| - 3)
  {}

  lemma SqueezeAround(a: string, x: string, b: string)
    requires x != [] && x[0] != '\n' && x[|x| - 1] != '\n'
    ensures Squeeze(a + x + b) == Squeeze(a) + Squeeze(x) + Squeeze(b)
  {
    hide Squeeze;
    SqueezeApart(a, x);
    SqueezeApart(a + x, b);
  }

  lemma {:induction false} SqueezeTailRun(s: string)
    ensures TailRun(Squeeze(s), '`') == TailRun(s, '`')
  {
    if s != [] {
      var init, c := s[..|s| - 1], s[|s| - 1];
      SqueezeEnds(s);
      if c == '`' {
        SqueezeTailRun(init);
        assert Squeeze(s)[..|Squeeze(s)| - 1] == Squeeze(init);
      }
    }
  }

  lemma {:induction false} SqueezeKeepsRuns(s: string)
    ensures LongestRun(Squeeze(s), '`') == LongestRun(s, '`')
  {
    if s != [] {
      var init := s[..|s| - 1];
      SqueezeKeepsRuns(init);
      SqueezeTailRun(s);
      if ThreeAt(s, |s| - 3) {
        assert TailRun(s, '`') == 0 && Squeeze(s) == Squeeze(init);
      } else {
        assert Squeeze(s)[..|Squeeze(s)| - 1] == Squeeze(init);
      }
    }
  }

  /** Squeezing takes out lines exactly where it takes out line feeds. */
  lemma {:induction false} SqueezeLosesLines(s: string)
    ensures |MarkLines(Squeeze(s))| <= |MarkLines(s)|
    ensures HasThree(s) ==> |MarkLines(Squeeze(s))| < |MarkLines(s)|
  {
    if s != [] {
      var init, c := s[..|s| - 1], s[|s| - 1];
      SqueezeLosesLines(init);
      if HasThree(s) && !ThreeAt(s, |s| - 3) {
        var i :| 0 <= i < |s| && ThreeAt(s, i);
        assert ThreeAt(init, i);
      }
      if ThreeAt(s, |s| - 3) {
        assert EndsLine(s) && Squeeze(s) == Squeeze(init);
      } else {
        var q := Squeeze(s);
        assert q == Squeeze(init) + [c] && q[..|q| - 1] == Squeeze(init);
        if init != [] { SqueezeEnds(init); }
        assert EndsLine(q) == EndsLine(s);
      }
    }
  }

  // ---- Trimming ----

  lemma {:induction false} TrimStartBefore(a: string, x: string)
    requires x != [] && !IsSpace(x[0])
    ensures TrimStart(a + x) == TrimStart(a) + x
  {
    if a == [] {
      assert a + x == x;
    } else {
      assert (a + x)[1..] == a[1..] + x;
      TrimStartBefore(a[1..], x);
    }
  }

  lemma {:induction false} TrimEndAfter(x: string, b: string)
    requires x != [] && !IsSpace(x[|x| - 1])
    ensures TrimEnd(x + b) == x + TrimEnd(b)
    decreases |b|
  {
    if b == [] {
      assert x + b == x;
    } else {
      assert (x + b)[..|x + b| - 1] == x + b[..|b| - 1];
      TrimEndAfter(x, b[..|b| - 1]);
    }
  }

  /** A solid piece of the printed text is copied by itself, whatever stands around it. */
  lemma CopiedAround(a: string, x: string, b: string)
    requires x != [] && !IsSpace(x[0]) && !IsSpace(x[|x| - 1])
    ensures Copied(a + x + b) == Squeeze(TrimStart(a)) + Squeeze(x) + Squeeze(TrimEnd(b))
  {
    hide TrimStart, TrimEnd, Squeeze;
    assert a + x + b == a + (x + b);
    TrimStartBefore(a, x + b);
    assert TrimStart(a) + (x + b) == TrimStart(a) + x + b;
    TrimEndAfter(TrimStart(a) + x, b);
    SqueezeAround(TrimStart(a), x, TrimEnd(b));
  }

  lemma CopiedAlone(x: string)
    requires x != [] && !IsSpace(x[0]) && !IsSpace(x[|x| - 1])
    ensures Copied("\n\n" + x + "\n\n") == Squeeze(x)
  {
    CopiedAround("\n\n", x, "\n\n");
    TwoFeeds();
    hide Squeeze, Copied;
    assert [] + Squeeze(x) + [] == Squeeze(x);
  }

  lemma TwoFeeds()
    ensures TrimStart("\n\n") == [] && TrimEnd("\n\n") == [] && Squeeze([]) == []
  {
    assert "\n\n"[1..] == "\n" && "\n"[1..] == [] && "\n\n"[..1] == "\n" && "\n"[..0] == [];
    assert TrimStart("\n") == TrimStart([]) && TrimEnd("\n") == TrimEnd([]);
  }

  // ---- Tables ----

  function TableText(rows: seq<seq<string>>): string
    requires rows != []
  {
    Join(TableLines(rows), "\n")
  }

  /** Lines that are neither empty nor broken, joined: no line feeds in a row, none at the ends. */
  ghost predicate Tight(s: string) {
    && s != [] && s[0] != '\n' && s[|s| - 1] != '\n'
    && forall i :: 0 <= i && i + 1 < |s| && s[i] == '\n' ==> s[i + 1] != '\n'
  }

  lemma {:induction false} JoinedIsTight(lines: seq<string>)
    requires lines != [] && forall i :: 0 <= i < |lines| ==> lines[i] != [] && '\n' !in lines[i]
    ensures Tight(Join(lines, "\n"))
    ensures Join(lines, "\n")[0] == lines[0][0]
    ensures var last := lines[|lines| - 1]; Join(lines, "\n")[|Join(lines, "\n")| - 1] == last[|last| - 1]
  {
    var init, last := lines[..|lines| - 1], lines[|lines| - 1];
    if init != [] {
      JoinedIsTight(init);
      TightGrows(Join(init, "\n"), last);
    }
  }

  lemma TightGrows(s: string, line: string)
    requires Tight(s) && line != [] && '\n' !in line
    ensures Tight(s + "\n" + line)
  {
    var all := s + "\n" + line;
    forall i | 0 <= i && i + 1 < |all| && all[i] == '\n' ensures all[i + 1] != '\n' {
      if i >= |s| { assert all[i + 1] in line; }
    }
  }

  lemma TightStays(s: string)
    requires Tight(s)
    ensures Squeeze(s) == s
  {
    SqueezesExactlyWhen(s);
  }

  lemma TableLinesSolid(rows: seq<seq<string>>)
    requires rows != []
    ensures forall line :: line in TableLines(rows) ==>
      line != [] && '\n' !in line && line[0] == '|' == line[|line| - 1]
  {
    hide Clean, Width, Padded;
    var lines := TableLines(rows);
    var cells := PaddedRows(rows, Width(rows));
    PaddedRowsAreClean(rows, Width(rows));
    RulesRow(Width(rows));
    forall line | line in lines ensures line != [] && '\n' !in line && line[0] == '|' == line[|line| - 1] {
      var i :| 0 <= i < |lines| && lines[i] == line;
      var row := if i == 1 then Copies("---", Width(rows)) else cells[if i == 0 then 0 else i - 1];
      assert line == RowLine(row) && (i != 1 ==> row in cells);
      SolidRow(row, Width(rows));
    }
  }

  lemma SolidRow(row: seq<string>, width: nat)
    requires CleanRow(row, width)
    ensures var line := RowLine(row); line != [] && '\n' !in line && line[0] == '|' == line[|line| - 1]
  {
    hide Clean;
    forall c | c in row ensures '\n' !in c { CleanHasNoBreak(c); }
    RowIsARow(row);
  }

  /** A printed table is copied line for line, whatever its cells hold. */
  lemma CopiedTable(rows: seq<seq<string>>)
    requires rows != []
    ensures Copied(PrintTable(rows)) == TableText(rows)
    ensures Lines(TableText(rows)) == TableLines(rows)
  {
    hide Copied, Lines, TableLines, Squeeze;
    var lines := TableLines(rows);
    TableLinesSolid(rows);
    assert forall i :: 0 <= i < |lines| ==> lines[i] in lines;
    JoinedIsTight(lines);
    TightStays(TableText(rows));
    assert lines[0] in lines && lines[|lines| - 1] in lines && !IsSpace('|');
    CopiedAlone(TableText(rows));
    LinesOfJoin(lines);
  }

  /** Reading a copied table gives that table back, and nothing else, exactly when it has 2 to 20 columns and 1 to 100
      rows under its heading. */
  lemma CopiedTableRoundTrip(rows: seq<seq<string>>)
    requires rows != []
    ensures var cells := PaddedRows(rows, Width(rows));
      Shown(Lines(Copied(PrintTable(rows)))) == [Table(cells[0], cells[1..])] <==> Fits(rows)
  {
    hide Lines, Width, PaddedRows, TableLines, Blocks, Gather, Copied, PrintTable, Covers, StartsTable;
    CopiedTable(rows);
    var lines := TableLines(rows);
    PrintedTableIsRead(rows, []);
    assert lines + [] == lines;
    NothingLeft(None, []);
    AheadOfNothing(Gather(Blocks([], None)));
    if Shown(lines) == [Table(PaddedRows(rows, Width(rows))[0], PaddedRows(rows, Width(rows))[1..])] {
      ReadingIsLossless(lines);
      assert Shown(lines)[0] in Shown(lines);
      assert rows[0] in rows;
      HeadWidth(rows);
    }
  }

  lemma HeadWidth(rows: seq<seq<string>>)
    requires rows != []
    ensures |PaddedRows(rows, Width(rows))[0]| == Width(rows)
  {
    assert rows[0] in rows;
  }

  // ---- Code blocks ----

  /** What is left of a code block's text between its fences. */
  function Kept(text: string): string {
    var squeezed := Squeeze("\n" + text + "\n");
    SqueezeEnds("\n" + text + "\n");
    squeezed[1..|squeezed| - 1]
  }

  lemma KeptFrame(text: string)
    ensures Squeeze("\n" + text + "\n") == "\n" + Kept(text) + "\n"
    ensures LongestRun(Kept(text), '`') == LongestRun(text, '`')
    ensures Kept(text) == text <==> !HasThree("\n" + text + "\n")
  {
    hide Squeeze, LongestRun;
    var framed := "\n" + text + "\n";
    SqueezeEnds(framed);
    var squeezed := Squeeze(framed);
    assert squeezed == [squeezed[0]] + squeezed[1..|squeezed| - 1] + [squeezed[|squeezed| - 1]];
    assert squeezed == "\n" + Kept(text) + "\n";
    SqueezeKeepsRuns(framed);
    AroundRuns(text, '\n');
    AroundRuns(Kept(text), '\n');
    SqueezesExactlyWhen(framed);
    if squeezed == framed {
      assert framed[1..|framed| - 1] == text;
    }
  }

  lemma FenceIsTight(text: string)
    ensures var f := FenceFor(text, 3); Squeeze(f) == f && f != [] && f[0] == '`' == f[|f| - 1]
  {
    hide LongestRun;
    SqueezesExactlyWhen(FenceFor(text, 3));
  }

  /** A copied code block is the block printed for what is left of its text. */
  lemma CopiedBlock(text: string)
    ensures Squeeze(BlockText(text)) == BlockText(Kept(text))
    ensures Copied(PrintBlock(text)) == BlockText(Kept(text))
  {
    hide Squeeze, LongestRun, Copied, Kept;
    var f := FenceFor(text, 3);
    FenceIsTight(text);
    KeptFrame(text);
    var framed := "\n" + text + "\n";
    assert BlockText(text) == f + framed + f;
    SqueezeApart(f, framed);
    SqueezeApart(f + framed, f);
    assert FenceFor(Kept(text), 3) == f;
    assert f + ("\n" + Kept(text) + "\n") + f == BlockText(Kept(text));
    assert !IsSpace('`');
    CopiedAlone(BlockText(text));
  }

  lemma FramedLineCount(text: string)
    ensures |MarkLines("\n" + text + "\n")| == |LinesBeforeFeed(text)| + 2
  {
    hide MarkLines;
    MarkLinesConcat("", text + "\n" + "");
    MarkLinesConcat(text, "");
    OneMarkLine("");
    assert "" + "\n" + (text + "\n" + "") == "\n" + text + "\n";
  }

  /** A text with three line feeds in a row loses a line, counting those printed around it. */
  lemma KeptLosesLines(text: string)
    ensures LinesBeforeFeed(Kept(text)) == MarkLines(text) <==> !HasThree("\n" + text + "\n") && !EndsInReturn(text)
  {
    hide MarkLines, Squeeze, Kept;
    KeptFrame(text);
    if HasThree("\n" + text + "\n") {
      SqueezeLosesLines("\n" + text + "\n");
      FramedLineCount(text);
      FramedLineCount(Kept(text));
      assert |LinesBeforeFeed(Kept(text))| < |LinesBeforeFeed(text)| <= |MarkLines(text)|;
    }
  }

  /** For every text, a CommonMark reader closes the copied block at its own closing fence and nowhere earlier. It gets
      exactly the text's lines if and only if the text, with a line feed on either side, holds no three line feeds in a
      row, and does not end in a carriage return. */
  lemma CopiedBlockIsRecovered(text: string, rest: seq<string>)
    ensures var lines := MarkLines(Copied(PrintBlock(text))) + rest;
      && Run(lines[0], '`') == |lines[0]| >= 3
      && BlockContent(lines[1..], |lines[0]|) == (LinesBeforeFeed(Kept(text)), rest)
      && (BlockContent(lines[1..], |lines[0]|).0 == MarkLines(text)
          <==> !HasThree("\n" + text + "\n") && !EndsInReturn(text))
      && (BlockContent(lines[1..], |lines[0]|).0 == MarkLines(text) && '\r' !in text ==>
            Join(BlockContent(lines[1..], |lines[0]|).0, "\n") == text)
  {
    hide MarkLines, BlockContent, Copied, PrintBlock, BlockText, LinesBeforeFeed, EndsInReturn, Join, Kept, Lines;
    CopiedBlock(text);
    PrintedBlockIsRecovered(Kept(text), rest);
    KeptLosesLines(text);
    if '\r' !in text {
      PlainMarkLines(text);
      JoinLines(text);
    }
  }

  /** The saved-document reader, too, keeps a copied block text and carries on after it. */
  lemma CopiedBlockStaysText(text: string, rest: seq<string>)
    ensures Blocks(Lines(Copied(PrintBlock(text))) + rest, None)
         == AsLines(Lines(Copied(PrintBlock(text)))) + Blocks(rest, None)
  {
    hide Lines, Blocks, Marker, Cells, StaysOpen, AsLines, FenceFor, Copied, PrintBlock, Kept, BlockText;
    CopiedBlock(text);
    var kept := Kept(text);
    var f := FenceFor(kept, 3);
    BlockTextLines(kept);
    FenceMarks(kept, 3);
    TextStaysOpen(kept, 3);
    FencedCodeStaysText(f, Lines(kept), f, rest);
  }

  lemma BlockTextLines(text: string)
    ensures Lines(BlockText(text)) == [FenceFor(text, 3)] + Lines(text) + [FenceFor(text, 3)]
  {
    hide Lines;
    var f := FenceFor(text, 3);
    LineOf(f);
    LinesConcat(text, f);
    LinesConcat(f, text + "\n" + f);
    assert f + "\n" + text + "\n" + f == f + "\n" + (text + "\n" + f);
  }
}
